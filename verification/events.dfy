/**
 * What the capture wrappers of `exec.c` and `access.c` share: the envelope
 * every record starts with, the outcome of a wrapped call as the caller
 * observes it, and the report the record is appended to.
 *
 * The real libc operations are oracles: function parameters standing for
 * the symbol the dynamic loader resolved. The clock is a parameter too.
 */
module Events {
  import opened Base
  import opened Scan
  import Decimal

  /** `{"type":"libc_call","timestamp":` */
  const EVENT_TIMESTAMP := "{\"type\":\"libc_call\",\"timestamp\":"
  /** `,"data":{"function_name":"` */
  const EVENT_FUNCTION := ",\"data\":{\"function_name\":\""
  /** Closes `data` and the record. */
  const EVENT_END := "}}"

  /**
   * How a call ends for its caller: it returns a value, the process image
   * is replaced, the process exits with a status, or the process aborts.
   * An exit says whether the library's destructor runs: only then is the
   * buffered report written to its log file (`main.c`). A replaced image
   * and an abort run no destructor either.
   */
  datatype Outcome = Returned(value: int) | ImageReplaced | Exited(status: int, destructorRuns: bool) | Aborted

  /** The outcome of one wrapped call and the report after it. */
  datatype Step = Step(outcome: Outcome, report: seq<string>)

  /**
   * The record envelope around the call-specific part `data`. It reads
   * back as its timestamp, function name and data when the name, inserted
   * verbatim, has no quote and the data starts where the name's closing
   * quote is expected.
   */
  function Envelope(timestamp: nat, functionName: string, data: string): (r: string)
    ensures Lacks(functionName, '"') && StartsWithQuote(data) ==>
      ParseEnvelope(r) == Some((timestamp, functionName, data))
  {
    var t := Field(EVENT_FUNCTION, functionName, data);
    var r := Field(EVENT_TIMESTAMP, Decimal.IntToString(timestamp), t);
    assert Lacks(functionName, '"') && StartsWithQuote(data) ==> ParseEnvelope(r) == Some((timestamp, functionName, data)) by {
      if Lacks(functionName, '"') && StartsWithQuote(data) {
        ReadIntFieldRoundTrip(EVENT_TIMESTAMP, timestamp, t);
        ReadRawFieldRoundTrip(EVENT_FUNCTION, functionName, data);
      }
    }
    r
  }

  /** Reads the envelope back: timestamp, function name, and the call-specific rest. */
  function ParseEnvelope(s: string): (r: Option<(int, string, string)>)
    ensures r.Some? ==> Lacks(r.value.1, '"')
  {
    var ts :- ReadIntField(EVENT_TIMESTAMP, s);
    var name :- ReadRawField(EVENT_FUNCTION, ts.1);
    Some((ts.0, name.0, name.1))
  }

  /** `report` grew by exactly one record, appended after the earlier ones. */
  predicate AppendedOne(before: seq<string>, after: seq<string>) {
    |after| == |before| + 1 && after[..|before|] == before
  }

  /** The record the last call appended. */
  function Last(report: seq<string>): string
    requires |report| > 0
  {
    report[|report| - 1]
  }
}
