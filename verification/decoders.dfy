/**
 * Decoders that undo the encoders of `util.c`: a JSON string-literal
 * decoder following section 7 of RFC 8259, a decoder for a JSON array of
 * string literals (section 5), and a hex decoder. The round-trip lemmas
 * are the contract of the encoders: for ASCII input the escaper produces a
 * well-formed string literal that decodes to the input.
 */
module Decoders {
  import opened Base
  import opened JsonUtil
  import opened Scan

  /** The value of one hex digit, in either case. */
  function HexDigitValue(c: char): (r: Option<nat>)
    ensures r.Some? ==> r.value < 16
  {
    if '0' <= c <= '9' then Some(c as int - '0' as int)
    else if 'a' <= c <= 'f' then Some(c as int - 'a' as int + 10)
    else if 'A' <= c <= 'F' then Some(c as int - 'A' as int + 10)
    else None
  }

  /** The value of four hex digits, high first, as in a `\u` escape. */
  function Hex4Value(s: string): (r: Option<nat>)
    requires |s| == 4
    ensures r.Some? ==> r.value < 0x10000
  {
    match (HexDigitValue(s[0]), HexDigitValue(s[1]), HexDigitValue(s[2]), HexDigitValue(s[3]))
    case (Some(a), Some(b), Some(c), Some(d)) => Some(a * 0x1000 + b * 0x100 + c * 0x10 + d)
    case _ => None
  }

  /** The two-character escapes of RFC 8259: `\"`, `\\`, `\/`, `\b`, `\f`, `\n`, `\r`, `\t`. */
  function ShortEscape(c: char): Option<char> {
    if c == '"' then Some('"')
    else if c == '\\' then Some('\\')
    else if c == '/' then Some('/')
    else if c == 'b' then Some(8 as char)
    else if c == 'f' then Some(12 as char)
    else if c == 'n' then Some(10 as char)
    else if c == 'r' then Some(13 as char)
    else if c == 't' then Some(9 as char)
    else None
  }

  /** Characters a string literal may carry unescaped: not a control character, quote or backslash. */
  predicate Unescaped(c: char) {
    c as int >= 0x20 && c != '"' && c != '\\'
  }

  /**
   * Decodes the characters of a string literal after its opening quote, up
   * to and including the closing quote; returns the value and the text that
   * follows. A `\u` escape naming a surrogate is refused (pairs are not
   * decoded; the escaper never produces one).
   */
  function DecodeChars(s: string): (r: Option<(string, string)>)
    ensures r.Some? ==> |r.value.1| < |s|
    decreases |s|
  {
    if s == [] then None
    else if s[0] == '"' then Some(("", s[1..]))
    else if s[0] == '\\' then
      if |s| < 2 then None
      else match ShortEscape(s[1])
        case Some(c) => Prepend(c, DecodeChars(s[2..]))
        case None =>
          if s[1] == 'u' && |s| >= 6 then
            match Hex4Value(s[2..6])
            case Some(v) =>
              if 0xD800 <= v <= 0xDFFF then None else Prepend(v as char, DecodeChars(s[6..]))
            case None => None
          else None
    else if Unescaped(s[0]) then Prepend(s[0], DecodeChars(s[1..]))
    else None
  }

  function Prepend(c: char, r: Option<(string, string)>): (r': Option<(string, string)>)
    ensures r'.Some? <==> r.Some?
    ensures r'.Some? ==> r'.value.1 == r.value.1
  {
    match r
    case None => None
    case Some((v, rest)) => Some(([c] + v, rest))
  }

  /** Decodes one string literal at the front of `s`. */
  function DecodeStringLiteral(s: string): (r: Option<(string, string)>)
    ensures r.Some? ==> |r.value.1| < |s|
  {
    if |s| > 0 && s[0] == '"' then DecodeChars(s[1..]) else None
  }

  /** `s` is exactly one well-formed JSON string literal. */
  predicate IsJsonStringLiteral(s: string) {
    var r := DecodeStringLiteral(s);
    r.Some? && r.value.1 == ""
  }

  lemma HexUpperValue(d: nat)
    requires d < 16
    ensures HexDigitValue(HexUpper(d)) == Some(d)
  {
    assert HEX_UPPER == ['0', '1', '2', '3', '4', '5', '6', '7', '8', '9', 'A', 'B', 'C', 'D', 'E', 'F'];
  }

  lemma HexLowerValue(d: nat)
    requires d < 16
    ensures HexDigitValue(HexLower(d)) == Some(d)
  {
    assert HEX_LOWER == ['0', '1', '2', '3', '4', '5', '6', '7', '8', '9', 'a', 'b', 'c', 'd', 'e', 'f'];
  }

  /** The `%04X` digits of a byte value read back as that value. */
  lemma Hex4RoundTrip(n: nat)
    requires n < 256
    ensures Hex4Value(Hex4Upper(n)) == Some(n)
  {
    HexUpperValue(0);
    HexUpperValue(n / 16);
    HexUpperValue(n % 16);
    assert n / 0x1000 == 0 && n / 0x100 % 16 == 0 && n / 0x10 % 16 == n / 16;
  }

  /** The `\u` form of an unprintable byte decodes back to that byte. */
  lemma UnicodeEscapeDecodes(c: char, tail: string)
    requires IsAsciiChar(c) && !IsPrint(c) && !NeedsBackslash(c)
    ensures DecodeChars(EscapeChar(c) + tail) == Prepend(c, DecodeChars(tail))
  {
    var h := Hex4Upper(c as int);
    var t := EscapeChar(c) + tail;
    assert EscapeChar(c) == ['\\', 'u'] + h;
    assert t[0] == '\\' && t[1] == 'u' && |t| >= 6;
    assert ShortEscape('u') == None;
    assert t[2..6] == h by {
      assert forall k :: 0 <= k < 4 ==> t[2 + k] == h[k];
    }
    assert t[6..] == tail;
    Hex4RoundTrip(c as int);
    assert (c as int) as char == c;
  }

  /** One escaped byte followed by more text decodes to that byte followed by the rest. */
  lemma EscapeCharDecodes(c: char, tail: string)
    requires IsAsciiChar(c)
    ensures DecodeChars(EscapeChar(c) + tail) == Prepend(c, DecodeChars(tail))
  {
    var e := EscapeChar(c);
    if NeedsBackslash(c) {
      assert e == ['\\', c];
      assert (e + tail)[2..] == tail;
    } else if !IsPrint(c) {
      UnicodeEscapeDecodes(c, tail);
    } else {
      assert e == [c];
      assert (e + tail)[1..] == tail;
    }
  }

  lemma {:induction false} EscapeBodyDecodes(s: string, rest: string)
    requires Ascii(s)
    ensures DecodeChars(EscapeBody(s) + "\"" + rest) == Some((s, rest))
    decreases |s|
  {
    if s == [] {
      assert EscapeBody(s) + "\"" + rest == "\"" + rest;
      assert ("\"" + rest)[1..] == rest;
    } else {
      var tail := EscapeBody(s[1..]) + "\"" + rest;
      assert EscapeBody(s) + "\"" + rest == EscapeChar(s[0]) + tail;
      EscapeCharDecodes(s[0], tail);
      EscapeBodyDecodes(s[1..], rest);
      assert [s[0]] + s[1..] == s;
    }
  }

  /**
   * Decoding the escaper's output recovers the input and stops right after
   * the closing quote, whatever follows it.
   */
  lemma StringToJsonValueDecodes(s: string, rest: string)
    requires Ascii(s)
    ensures DecodeStringLiteral(StringToJsonValue(s) + rest) == Some((s, rest))
  {
    var t := StringToJsonValue(s) + rest;
    assert t[1..] == EscapeBody(s) + "\"" + rest;
    EscapeBodyDecodes(s, rest);
  }

  /** For ASCII input the escaper yields one well-formed JSON string literal. */
  lemma StringToJsonValueIsLiteral(s: string)
    requires Ascii(s)
    ensures IsJsonStringLiteral(StringToJsonValue(s))
  {
    StringToJsonValueDecodes(s, "");
    assert StringToJsonValue(s) + "" == StringToJsonValue(s);
  }

  /** Decoding consumes the closing quote and at least one character per value character. */
  lemma {:induction false} DecodeCharsConsumes(t: string)
    ensures DecodeChars(t).Some? ==> |DecodeChars(t).value.0| + 1 + |DecodeChars(t).value.1| <= |t|
    decreases |t|
  {
    if t != [] && t[0] != '"' && DecodeChars(t).Some? {
      if t[0] == '\\' {
        if ShortEscape(t[1]).Some? {
          DecodeCharsConsumes(t[2..]);
        } else {
          DecodeCharsConsumes(t[6..]);
        }
      } else {
        DecodeCharsConsumes(t[1..]);
      }
    }
  }

  /**
   * Text placed between quotes without escaping, as `exec.c` does with the
   * function and file names and `access.c` with the path, reads back as a
   * JSON string literal with that value exactly when every character may
   * stand unescaped: no quote, no backslash, no control character.
   */
  lemma {:induction false} VerbatimDecodes(v: string, rest: string)
    ensures DecodeChars(v + "\"" + rest) == Some((v, rest)) <==> forall i :: 0 <= i < |v| ==> Unescaped(v[i])
    decreases |v|
  {
    var t := v + "\"" + rest;
    if v == [] {
      assert t == "\"" + rest;
    } else if Unescaped(v[0]) {
      assert t[0] == v[0] && t[1..] == v[1..] + "\"" + rest;
      VerbatimDecodes(v[1..], rest);
      assert DecodeChars(t) == Prepend(v[0], DecodeChars(t[1..]));
      assert [v[0]] + v[1..] == v;
      assert forall i :: 0 < i < |v| ==> v[i] == v[1..][i - 1];
    } else if v[0] == '\\' {
      assert !Unescaped(v[0]);
      VerbatimEscapeShrinks(v, rest);
    } else {
      assert !Unescaped(v[0]);
    }
  }

  /** Text that starts with a backslash cannot decode to itself: the escape shrinks it. */
  lemma VerbatimEscapeShrinks(v: string, rest: string)
    requires v != [] && v[0] == '\\'
    ensures DecodeChars(v + "\"" + rest) != Some((v, rest))
  {
    var t := v + "\"" + rest;
    assert t[0] == '\\' && |t| >= 2;
    var r := DecodeChars(t);
    if r.Some? {
      if ShortEscape(t[1]).Some? {
        assert r == Prepend(ShortEscape(t[1]).value, DecodeChars(t[2..]));
        DecodeCharsConsumes(t[2..]);
        assert |r.value.0| + 1 + |r.value.1| <= |t| - 1;
      } else {
        assert |t| >= 6;
        var v6 := Hex4Value(t[2..6]).value;
        assert r == Prepend(v6 as char, DecodeChars(t[6..]));
        DecodeCharsConsumes(t[6..]);
        assert |r.value.0| + 1 + |r.value.1| <= |t| - 5;
      }
    }
  }

  /**
   * A file name holding a backslash followed by `n`, inserted verbatim,
   * reads back as a newline: the name `a\nb` comes back as three characters.
   */
  lemma BackslashInVerbatim(rest: string)
    ensures DecodeChars("a\\nb" + "\"" + rest) == Some((['a', 10 as char, 'b'], rest))
    ensures !(forall i :: 0 <= i < |"a\\nb"| ==> Unescaped("a\\nb"[i]))
  {
    var t4 := "\"" + rest;
    var t3 := ['b'] + t4;
    var t1 := ['\\', 'n'] + t3;
    var t := ['a'] + t1;
    assert t == "a\\nb" + "\"" + rest;
    assert DecodeChars(t4) == Some(("", rest));
    assert t3[0] == 'b' && Unescaped(t3[0]) && t3[1..] == t4;
    assert DecodeChars(t3) == Prepend('b', DecodeChars(t4));
    assert t1[0] == '\\' && t1[1] == 'n' && ShortEscape(t1[1]) == Some(10 as char) && t1[2..] == t3;
    assert DecodeChars(t1) == Prepend(10 as char, DecodeChars(t3));
    assert t[0] == 'a' && Unescaped(t[0]) && t[1..] == t1;
    assert DecodeChars(t) == Prepend('a', DecodeChars(t1));
    assert ['b'] + "" == ['b'];
    assert DecodeChars(t3) == Some((['b'], rest));
    assert DecodeChars(t1) == Some(([10 as char] + ['b'], rest));
    assert [10 as char] + ['b'] == [10 as char, 'b'] && ['a'] + [10 as char, 'b'] == ['a', 10 as char, 'b'];
    assert !Unescaped("a\\nb"[1]);
  }

  /** The escaper is injective on ASCII strings. */
  lemma StringToJsonValueInjective(s: string, t: string)
    requires Ascii(s) && Ascii(t)
    requires StringToJsonValue(s) == StringToJsonValue(t)
    ensures s == t
  {
    StringToJsonValueDecodes(s, "");
    StringToJsonValueDecodes(t, "");
    assert StringToJsonValue(s) + "" == StringToJsonValue(s);
    assert StringToJsonValue(t) + "" == StringToJsonValue(t);
  }

  predicate Printable(s: string) {
    forall i :: 0 <= i < |s| ==> IsPrint(s[i])
  }

  lemma PrintableConcat(a: string, b: string)
    requires Printable(a) && Printable(b)
    ensures Printable(a + b)
  {
    forall i | 0 <= i < |a + b| ensures IsPrint((a + b)[i]) {
      if i >= |a| { assert (a + b)[i] == b[i - |a|]; }
    }
  }

  /** The escape of any single ASCII byte is printable. */
  lemma EscapeCharPrintable(c: char)
    requires IsAsciiChar(c)
    ensures Printable(EscapeChar(c))
  {
    if !IsPrint(c) {
      var n := c as int;
      assert n / 0x1000 == 0 && n / 0x100 % 16 == 0;
      assert forall d: nat :: d < 16 ==> IsPrint(HexUpper(d));
    }
  }

  /** Escaped output consists of printable ASCII only. */
  lemma {:induction false} EscapeBodyPrintable(s: string)
    requires Ascii(s)
    ensures forall i :: 0 <= i < |EscapeBody(s)| ==> IsPrint(EscapeBody(s)[i])
    decreases |s|
  {
    if s != [] {
      EscapeBodyPrintable(s[1..]);
      EscapeCharPrintable(s[0]);
      PrintableConcat(EscapeChar(s[0]), EscapeBody(s[1..]));
    }
  }

  /**
   * Decodes a JSON array of string literals at the front of `s`; returns
   * the strings in order and the text after the closing bracket.
   */
  function DecodeStringList(s: string): Option<(seq<string>, string)> {
    if |s| >= 2 && s[0] == '[' && s[1] == ']' then Some(([], s[2..]))
    else if |s| >= 1 && s[0] == '[' then DecodeItems(s[1..])
    else None
  }

  /** The literals of a nonempty list, up to and including its closing bracket. */
  function DecodeItems(s: string): Option<(seq<string>, string)>
    decreases |s|
  {
    match DecodeStringLiteral(s)
    case None => None
    case Some((v, r)) =>
      if |r| > 0 && r[0] == ']' then Some(([v], r[1..]))
      else if |r| > 0 && r[0] == ',' then
        match DecodeItems(r[1..])
        case None => None
        case Some((vs, r2)) => Some(([v] + vs, r2))
      else None
  }

  /** The last literal of a list, then its closing bracket. */
  lemma DecodeItemsLast(s: string, rest: string)
    requires Ascii(s)
    ensures DecodeItems(StringToJsonValue(s) + ("]" + rest)) == Some(([s], rest))
  {
    StringToJsonValueDecodes(s, "]" + rest);
    assert ("]" + rest)[1..] == rest;
  }

  /** A literal followed by a comma, then the rest of the list. */
  lemma DecodeItemsNext(s: string, tail: string)
    requires Ascii(s)
    ensures DecodeItems(StringToJsonValue(s) + ("," + tail))
            == if DecodeItems(tail).Some? then Some(([s] + DecodeItems(tail).value.0, DecodeItems(tail).value.1)) else None
  {
    StringToJsonValueDecodes(s, "," + tail);
    assert ("," + tail)[1..] == tail;
  }

  lemma CommaReassoc(a: string, b: string, c: string)
    ensures a + "," + b + "]" + c == a + ("," + (b + "]" + c))
  {
  }

  lemma DecodeItemsOfJoinSingle(ss: seq<string>, rest: string)
    requires AllAscii(ss) && |ss| == 1
    ensures DecodeItems(Join(EscapeAll(ss)) + "]" + rest) == Some((ss, rest))
  {
    var head := StringToJsonValue(ss[0]);
    assert Join(EscapeAll(ss)) == head;
    assert head + "]" + rest == head + ("]" + rest);
    DecodeItemsLast(ss[0], rest);
    assert [ss[0]] == ss;
  }

  lemma DecodeItemsOfJoinStep(ss: seq<string>, rest: string)
    requires AllAscii(ss) && |ss| > 1
    requires DecodeItems(Join(EscapeAll(ss[1..])) + "]" + rest) == Some((ss[1..], rest))
    ensures DecodeItems(Join(EscapeAll(ss)) + "]" + rest) == Some((ss, rest))
  {
    var es := EscapeAll(ss);
    var head := StringToJsonValue(ss[0]);
    var j := Join(EscapeAll(ss[1..]));
    assert es[1..] == EscapeAll(ss[1..]);
    assert Join(es) == head + "," + j;
    CommaReassoc(head, j, rest);
    DecodeItemsNext(ss[0], j + "]" + rest);
    assert [ss[0]] + ss[1..] == ss;
  }

  lemma {:induction false} DecodeItemsOfJoin(ss: seq<string>, rest: string)
    requires AllAscii(ss) && ss != []
    ensures DecodeItems(Join(EscapeAll(ss)) + "]" + rest) == Some((ss, rest))
    decreases |ss|
  {
    if |ss| == 1 {
      DecodeItemsOfJoinSingle(ss, rest);
    } else {
      DecodeItemsOfJoin(ss[1..], rest);
      DecodeItemsOfJoinStep(ss, rest);
    }
  }

  /**
   * Decoding the output of `string_array_to_json_list` recovers the array:
   * same strings, same order, same count.
   */
  lemma StringArrayToJsonListDecodes(ss: seq<string>, rest: string)
    requires AllAscii(ss)
    ensures DecodeStringList(StringArrayToJsonList(ss) + rest) == Some((ss, rest))
  {
    var t := StringArrayToJsonList(ss) + rest;
    if ss == [] {
      assert t == "[]" + rest;
      assert t[2..] == rest;
    } else {
      var es := EscapeAll(ss);
      assert t[0] == '[';
      assert t[1] == es[0][0];
      assert t[1..] == Join(es) + "]" + rest;
      DecodeItemsOfJoin(ss, rest);
    }
  }

  /** Reads `lit` and then a JSON array of string literals. */
  function ReadListField(lit: string, s: string): Option<(seq<string>, string)> {
    var r :- StripPrefix(lit, s);
    DecodeStringList(r)
  }

  lemma ReadListFieldRoundTrip(lit: string, ss: seq<string>, rest: string)
    requires AllAscii(ss)
    ensures ReadListField(lit, Field(lit, StringArrayToJsonList(ss), rest)) == Some((ss, rest))
  {
    assert Field(lit, StringArrayToJsonList(ss), rest) == lit + (StringArrayToJsonList(ss) + rest);
    StripPrefixOfConcat(lit, StringArrayToJsonList(ss) + rest);
    StringArrayToJsonListDecodes(ss, rest);
  }

  /** Reads pairs of hex digits back into bytes. */
  function HexStringToBytes(s: string): Option<seq<byte>>
    decreases |s|
  {
    if s == [] then Some([])
    else if |s| < 2 then None
    else
      match (HexDigitValue(s[0]), HexDigitValue(s[1]), HexStringToBytes(s[2..]))
      case (Some(h), Some(l), Some(bs)) => Some([h * 16 + l] + bs)
      case _ => None
  }

  /** Two lowercase digits of a byte, in front of decodable text, decode to that byte in front. */
  lemma HexPairDecodes(b: byte, t: string)
    requires HexStringToBytes(t).Some?
    ensures HexStringToBytes([HexLower(b / 16), HexLower(b % 16)] + t) == Some([b] + HexStringToBytes(t).value)
  {
    var s := [HexLower(b / 16), HexLower(b % 16)] + t;
    HexLowerValue(b / 16);
    HexLowerValue(b % 16);
    assert s[2..] == t;
    assert (b / 16) * 16 + b % 16 == b;
  }

  /** Hex encoding loses nothing: decoding it gives the bytes back. */
  lemma {:induction false} BytesToHexStringDecodes(bs: seq<byte>)
    ensures HexStringToBytes(BytesToHexString(bs)) == Some(bs)
    decreases |bs|
  {
    if bs != [] {
      BytesToHexStringDecodes(bs[1..]);
      HexPairDecodes(bs[0], BytesToHexString(bs[1..]));
      assert [bs[0]] + bs[1..] == bs;
    }
  }
}
