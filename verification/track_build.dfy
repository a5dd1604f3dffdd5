/**
 * The recorded-build model of `tracker/track/src/build.rs`: processes carry
 * a log of entries whose `data` is an arbitrary JSON value, and errors are
 * plain messages. `Build::new` runs the same integrity check as the newer
 * `analyze_base` crate and reports its two failures with fixed texts.
 */
module TrackBuild {
  import opened Base
  import Decimal
  import Integrity
  import opened ExitStatuses

  /** One log entry; the JSON value of `data` is kept as its serialised text. */
  datatype LogEntry = LogEntry(entryType: string, timestamp: nat, data: string)

  datatype Process = Process(pid: nat, ppid: nat, argv: seq<string>, log: seq<LogEntry>)

  datatype Build = Build(command: string, processes: seq<Process>)

  const DUPLICATE_PID_MESSAGE := "Duplicate pid found!"
  const MULTIPLE_COMPONENTS_MESSAGE := "Multiple connected components found! Possibly the data for a process is missing!"
  const SIGNAL_MESSAGE := "Build exited due to signal!"

  function IdsOf(ps: seq<Process>): (r: seq<Integrity.Ids>)
    ensures |r| == |ps|
    ensures forall i :: 0 <= i < |ps| ==> r[i] == Integrity.Ids(ps[i].pid, ps[i].ppid)
  {
    if ps == [] then [] else [Integrity.Ids(ps[0].pid, ps[0].ppid)] + IdsOf(ps[1..])
  }

  /**
   * `Build::verify_integrity` with its messages: the duplicate-pid message
   * exactly when a pid repeats, the components message when the pids are
   * distinct but more than one process has an unrecorded parent.
   */
  function VerifyIntegrity(ps: seq<Process>): (r: Result<(), string>)
    ensures r.Ok? <==> Integrity.DistinctPids(IdsOf(ps)) && Integrity.AtMostOneRoot(IdsOf(ps))
    ensures r == Err(DUPLICATE_PID_MESSAGE) <==> !Integrity.DistinctPids(IdsOf(ps))
    ensures r == Err(MULTIPLE_COMPONENTS_MESSAGE) <==> Integrity.DistinctPids(IdsOf(ps)) && !Integrity.AtMostOneRoot(IdsOf(ps))
  {
    var v := Integrity.VerifyIntegrity(IdsOf(ps));
    if v.Pass? then Ok(())
    else if v.error.DuplicatePid? then Err(DUPLICATE_PID_MESSAGE)
    else Err(MULTIPLE_COMPONENTS_MESSAGE)
  }

  /**
   * `Build::new`: accepted exactly when the pids are distinct and at most
   * one process has a parent outside the recording, keeping the command and
   * the processes; otherwise one of the two messages, the duplicate one
   * taking precedence.
   */
  function New(command: string, processes: seq<Process>): (r: Result<Build, string>)
    ensures r.Ok? <==> Integrity.DistinctPids(IdsOf(processes)) && Integrity.AtMostOneRoot(IdsOf(processes))
    ensures r.Ok? ==> r.value == Build(command, processes)
    ensures r.Err? ==> (r.error == DUPLICATE_PID_MESSAGE <==> !Integrity.DistinctPids(IdsOf(processes)))
    ensures r.Err? ==> r.error == DUPLICATE_PID_MESSAGE || r.error == MULTIPLE_COMPONENTS_MESSAGE
  {
    var _ :- VerifyIntegrity(processes);
    Ok(Build(command, processes))
  }

  /** The message for a build that exited with a non-zero code: the code in decimal, in double quotes. */
  function ExitCodeMessage(code: int): (m: string)
    ensures m != SIGNAL_MESSAGE
  {
    "Build exited with status \"" + Decimal.IntToString(code) + "\"!"
  }

  /**
   * `Build::execute_command` after the build has run, the collected
   * processes passed in: success yields them, a failure its message.
   */
  function ExecuteCommand(status: ExitStatus, collected: seq<Process>): (r: Result<seq<Process>, string>)
    ensures r.Ok? <==> status == Success
    ensures r.Ok? ==> r.value == collected
    ensures status.ExitedWithCode? ==> r == Err(ExitCodeMessage(status.code))
    ensures status == KilledBySignal ==> r == Err(SIGNAL_MESSAGE)
  {
    match status
    case Success => Ok(collected)
    case ExitedWithCode(code) => Err(ExitCodeMessage(code))
    case KilledBySignal => Err(SIGNAL_MESSAGE)
  }

  /** Two failing exit codes give two different messages. */
  lemma ExitCodeMessageInjective(c1: int, c2: int)
    requires ExitCodeMessage(c1) == ExitCodeMessage(c2)
    ensures c1 == c2
  {
    var pre := "Build exited with status \"";
    var s1 := Decimal.IntToString(c1);
    var s2 := Decimal.IntToString(c2);
    assert (pre + s1) + "\"!" == (pre + s2) + "\"!";
    assert pre + s1 == pre + s2 by {
      assert |pre + s1| == |pre + s2|;
      assert forall i :: 0 <= i < |pre + s1| ==> (pre + s1)[i] == ((pre + s1) + "\"!")[i];
      assert forall i :: 0 <= i < |pre + s2| ==> (pre + s2)[i] == ((pre + s2) + "\"!")[i];
    }
    assert s1 == (pre + s1)[|pre|..];
    assert s2 == (pre + s2)[|pre|..];
    Decimal.IntToStringInjective(c1, c2);
  }

  /** `Build::from_command`: a build comes out only of a successful run whose recording passes the integrity check. */
  function FromCommand(command: string, status: ExitStatus, collected: seq<Process>): (r: Result<Build, string>)
    ensures r.Ok? <==> status == Success && New(command, collected).Ok?
    ensures r.Ok? ==> r.value == Build(command, collected)
    ensures status.ExitedWithCode? ==> r == Err(ExitCodeMessage(status.code))
    ensures status == KilledBySignal ==> r == Err(SIGNAL_MESSAGE)
    ensures status == Success && r.Err? ==> r.error == DUPLICATE_PID_MESSAGE || r.error == MULTIPLE_COMPONENTS_MESSAGE
  {
    var processes :- ExecuteCommand(status, collected);
    New(command, processes)
  }

  /**
   * Read from the build's `code()`: the processes are collected exactly
   * when the code is 0; any other code is named in the message, and no
   * code at all gives the signal message.
   */
  lemma ExecuteOnCode(code: Option<int>, collected: seq<Process>)
    ensures ExecuteCommand(StatusOf(code), collected).Ok? <==> code == Some(0)
    ensures code.Some? && code.value != 0 ==> ExecuteCommand(StatusOf(code), collected) == Err(ExitCodeMessage(code.value))
    ensures code == None ==> ExecuteCommand(StatusOf(code), collected) == Err(SIGNAL_MESSAGE)
  {
  }

  function DummyProcess(pid: nat, ppid: nat): Process {
    Process(pid, ppid, [], [])
  }

  /**
   * The check promises a single connected component but counts parentless
   * processes only: the root 1 next to the pair 2 and 3, each the other's
   * parent, is accepted though no parent link joins the pair to the root.
   */
  lemma DetachedCycleAccepted()
    ensures New("", [DummyProcess(1, 0), DummyProcess(2, 3), DummyProcess(3, 2)]).Ok?
    ensures Integrity.Unlinked(Integrity.Ids(1, 0), Integrity.Ids(2, 3))
    ensures Integrity.Unlinked(Integrity.Ids(1, 0), Integrity.Ids(3, 2))
  {
    var ps := [DummyProcess(1, 0), DummyProcess(2, 3), DummyProcess(3, 2)];
    assert IdsOf(ps) == [Integrity.Ids(1, 0), Integrity.Ids(2, 3), Integrity.Ids(3, 2)];
    Integrity.DetachedCyclePasses(1, 2, 3, 0);
  }

  /** `test_build_integrity_duplicate_pid` with its message. */
  lemma DuplicatePidMessage()
    ensures New("", [DummyProcess(1, 0), DummyProcess(2, 1), DummyProcess(3, 1), DummyProcess(1, 3)]) == Err(DUPLICATE_PID_MESSAGE)
  {
    var ps := [DummyProcess(1, 0), DummyProcess(2, 1), DummyProcess(3, 1), DummyProcess(1, 3)];
    assert IdsOf(ps) == [Integrity.Ids(1, 0), Integrity.Ids(2, 1), Integrity.Ids(3, 1), Integrity.Ids(1, 3)];
    Integrity.DuplicateFails();
  }

  /** `test_build_integrity_multiple_connected_components_failure` with its message. */
  lemma MissingParentMessage(pid: nat, ppid: nat)
    requires pid != 0 && pid != 1 && pid != 2 && pid != 3
    requires ppid != 1 && ppid != 2 && ppid != 3 && ppid != pid
    ensures New("", [DummyProcess(1, 0), DummyProcess(2, 1), DummyProcess(3, 1), DummyProcess(pid, ppid)]) == Err(MULTIPLE_COMPONENTS_MESSAGE)
  {
    var ps := [DummyProcess(1, 0), DummyProcess(2, 1), DummyProcess(3, 1), DummyProcess(pid, ppid)];
    assert IdsOf(ps) == [Integrity.Ids(1, 0), Integrity.Ids(2, 1), Integrity.Ids(3, 1), Integrity.Ids(pid, ppid)];
    Integrity.MissingParentFails(pid, ppid);
  }
}
