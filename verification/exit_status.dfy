/**
 * `std::process::ExitStatus` as both build crates read it: `success()`
 * holds exactly for exit code 0, and `code()` is `None` when a signal ended
 * the process. A status is built from its `code()`, so a failing status
 * can never carry code 0.
 */
module ExitStatuses {
  import opened Base

  /** An exit code other than 0; code 0 is `ExitStatus::success()`. */
  type NonZero = c: int | c != 0 witness 1

  /** How the traced build ended: exit code 0, another exit code, or no code because a signal ended it. */
  datatype ExitStatus = Success | ExitedWithCode(code: NonZero) | KilledBySignal

  /** The status whose `code()` is `code`. */
  function StatusOf(code: Option<int>): (s: ExitStatus)
    ensures s == Success <==> code == Some(0)
    ensures s == KilledBySignal <==> code == None
    ensures s.ExitedWithCode? ==> code == Some(s.code)
  {
    match code
    case None => KilledBySignal
    case Some(c) => if c == 0 then Success else ExitedWithCode(c)
  }

  /** `ExitStatus::code()`: the exit code, 0 for success, none after a signal. */
  function Code(s: ExitStatus): (c: Option<int>)
    ensures StatusOf(c) == s
  {
    match s
    case Success => Option<int>.Some(0)
    case ExitedWithCode(code) => Some(code)
    case KilledBySignal => None
  }
}
