/**
 * The `access` wrapper of `access.c`. The real call happens first, so the
 * record can carry its result; the wrapper then appends one record and
 * returns the real result unchanged. The path is inserted between quotes
 * verbatim, without escaping.
 */
module Access {
  import opened Base
  import opened Scan
  import Decimal
  import opened Events

  const ACCESS_PATH := "\",\"path\":\""
  const ACCESS_MODE := "\",\"mode\":"
  const ACCESS_RESULT := ",\"result\":"

  /** The real `access(pathname, mode)`, as resolved by the dynamic loader. */
  type RealAccess = (string, int) -> int

  /**
   * `{"type":"libc_call","timestamp":T,"data":{"function_name":"access",
   * "path":"P","mode":M,"result":R}}`. It reads back, with the
   * quote-delimited reader of the verbatim path, as the call it describes
   * exactly when the path has no double quote; a quote in the path makes
   * the record unreadable as that call.
   */
  function AccessRecord(timestamp: nat, pathname: string, mode: int, result: int): (r: string)
    ensures ParseAccessRecord(r) == Some(AccessFields(timestamp, pathname, mode, result)) <==> Lacks(pathname, '"')
  {
    AccessEnvelopeReadsBack(timestamp, pathname, mode, result);
    Envelope(timestamp, "access",
      Field(ACCESS_PATH, pathname,
      Field(ACCESS_MODE, Decimal.IntToString(mode),
      Field(ACCESS_RESULT, Decimal.IntToString(result), EVENT_END))))
  }

  lemma AccessEnvelopeReadsBack(timestamp: nat, pathname: string, mode: int, result: int)
    ensures var r := Envelope(timestamp, "access",
      Field(ACCESS_PATH, pathname,
      Field(ACCESS_MODE, Decimal.IntToString(mode),
      Field(ACCESS_RESULT, Decimal.IntToString(result), EVENT_END))));
      ParseAccessRecord(r) == Some(AccessFields(timestamp, pathname, mode, result)) <==> Lacks(pathname, '"')
  {
    if Lacks(pathname, '"') {
      var t2 := Field(ACCESS_RESULT, Decimal.IntToString(result), EVENT_END);
      var t1 := Field(ACCESS_MODE, Decimal.IntToString(mode), t2);
      var t0 := Field(ACCESS_PATH, pathname, t1);
      assert Lacks("access", '"') && StartsWithQuote(t0);
      ReadRawFieldRoundTrip(ACCESS_PATH, pathname, t1);
      ReadIntFieldRoundTrip(ACCESS_MODE, mode, t2);
      ReadIntFieldRoundTrip(ACCESS_RESULT, result, EVENT_END);
    }
  }

  datatype AccessFields = AccessFields(timestamp: int, pathname: string, mode: int, result: int)

  function ParseAccessRecord(s: string): (r: Option<AccessFields>)
    ensures r.Some? ==> Lacks(r.value.pathname, '"')
  {
    var env :- ParseEnvelope(s);
    if env.1 != "access" then None
    else
      var path :- ReadRawField(ACCESS_PATH, env.2);
      var mode :- ReadIntField(ACCESS_MODE, path.1);
      var result :- ReadIntField(ACCESS_RESULT, mode.1);
      if result.1 == EVENT_END then Some(AccessFields(env.0, path.0, mode.0, result.0)) else None
  }

  /**
   * The `access` wrapper: the caller gets exactly what the real call
   * returns, and the report gains one record that carries that same value
   * as its result.
   */
  function Access(realAccess: RealAccess, now: nat, report: seq<string>, pathname: string, mode: int): (s: Step)
    ensures s.outcome == Returned(realAccess(pathname, mode))
    ensures AppendedOne(report, s.report)
    ensures Lacks(pathname, '"') ==>
      ParseAccessRecord(Last(s.report)) == Some(AccessFields(now, pathname, mode, s.outcome.value))
  {
    var result := realAccess(pathname, mode);
    Step(Returned(result), report + [AccessRecord(now, pathname, mode, result)])
  }
}
