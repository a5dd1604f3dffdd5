/**
 * Readers for the fixed-layout records the tracer emits: strip an expected
 * literal, read a number, or take raw text up to the next double quote.
 * They are the left inverses used to state what a record contains.
 */
module Scan {
  import opened Base
  import Decimal

  /**
   * One field of a fixed-layout record: the literal that names it, its
   * value, and everything after it. Records are written as nested fields.
   */
  function Field(lit: string, value: string, rest: string): string {
    lit + (value + rest)
  }

  /** Removes the literal `lit` from the front of `s`, if it is there. */
  function StripPrefix(lit: string, s: string): (r: Option<string>)
    ensures r.Some? <==> |lit| <= |s| && s[..|lit|] == lit
    ensures r.Some? ==> s == lit + r.value
  {
    if |lit| <= |s| && s[..|lit|] == lit then
      assert s == lit + s[|lit|..];
      Some(s[|lit|..])
    else None
  }

  lemma StripPrefixOfConcat(lit: string, rest: string)
    ensures StripPrefix(lit, lit + rest) == Some(rest)
  {
    assert (lit + rest)[..|lit|] == lit;
    assert (lit + rest)[|lit|..] == rest;
  }

  predicate StartsWithQuote(s: string) {
    |s| > 0 && s[0] == '"'
  }

  /**
   * Splits `s` at its first double quote; the quote stays with the rest.
   * This is how a field inserted verbatim before a quote is read back.
   */
  function ReadRaw(s: string): (r: Option<(string, string)>)
    ensures r.Some? ==> Lacks(r.value.0, '"') && StartsWithQuote(r.value.1)
    ensures r.Some? ==> s == r.value.0 + r.value.1
    decreases |s|
  {
    if s == [] then None
    else if s[0] == '"' then Some(("", s))
    else
      match ReadRaw(s[1..])
      case None => None
      case Some((p, rest)) => Some(([s[0]] + p, rest))
  }

  /** A quote-free field followed by a quote reads back as itself. */
  lemma {:induction false} ReadRawRoundTrip(p: string, rest: string)
    requires Lacks(p, '"') && StartsWithQuote(rest)
    ensures ReadRaw(p + rest) == Some((p, rest))
    decreases |p|
  {
    if p == [] {
      assert p + rest == rest;
    } else {
      assert (p + rest)[1..] == p[1..] + rest;
      ReadRawRoundTrip(p[1..], rest);
      assert [p[0]] + p[1..] == p;
    }
  }

  /** Reads `lit` and then a signed decimal number. */
  function ReadIntField(lit: string, s: string): Option<(int, string)> {
    var r :- StripPrefix(lit, s);
    Decimal.ReadInt(r)
  }

  lemma ReadIntFieldRoundTrip(lit: string, n: int, rest: string)
    requires !Decimal.StartsWithDigit(rest)
    ensures ReadIntField(lit, Field(lit, Decimal.IntToString(n), rest)) == Some((n, rest))
  {
    StripPrefixOfConcat(lit, Decimal.IntToString(n) + rest);
    Decimal.ReadIntRoundTrip(n, rest);
  }

  /** Reads `lit` and then raw text up to the next quote. */
  function ReadRawField(lit: string, s: string): (r: Option<(string, string)>)
    ensures r.Some? ==> Lacks(r.value.0, '"')
  {
    var t :- StripPrefix(lit, s);
    ReadRaw(t)
  }

  lemma ReadRawFieldRoundTrip(lit: string, v: string, rest: string)
    requires Lacks(v, '"') && StartsWithQuote(rest)
    ensures ReadRawField(lit, Field(lit, v, rest)) == Some((v, rest))
  {
    StripPrefixOfConcat(lit, v + rest);
    ReadRawRoundTrip(v, rest);
  }

  /** Reads `lit`, then everything up to a final `end`. */
  function ReadLastField(lit: string, s: string, end: string): Option<string> {
    var r :- StripPrefix(lit, s);
    if |r| >= |end| && r[|r| - |end|..] == end then Some(r[..|r| - |end|]) else None
  }

  lemma ReadLastFieldRoundTrip(lit: string, v: string, end: string)
    ensures ReadLastField(lit, Field(lit, v, end), end) == Some(v)
  {
    StripPrefixOfConcat(lit, v + end);
    assert (v + end)[|v + end| - |end|..] == end;
    assert (v + end)[..|v + end| - |end|] == v;
  }
}
