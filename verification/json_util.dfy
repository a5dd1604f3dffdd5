/**
 * The encoders of `util.c`: JSON string escaping, JSON array assembly and
 * lowercase hex. Each C routine measures its output first and then fills a
 * buffer of exactly that size; the functions here state the output, and the
 * `...Buffer` methods follow the C algorithm and are proved to fill the
 * measured buffer exactly with that output.
 */
module JsonUtil {
  import opened Base

  const HEX_UPPER := "0123456789ABCDEF"
  const HEX_LOWER := "0123456789abcdef"

  function HexLower(d: nat): char
    requires d < 16
  {
    HEX_LOWER[d]
  }

  /** A digit `%X` may print: `0`-`9` or an uppercase `A`-`F`. */
  predicate UpperHexDigit(ch: char) {
    '0' <= ch <= '9' || 'A' <= ch <= 'F'
  }

  function HexUpper(d: nat): (ch: char)
    requires d < 16
    ensures UpperHexDigit(ch)
  {
    HEX_UPPER[d]
  }

  /** printf's `%04X`: four uppercase hex digits, zero-padded, high first. */
  function Hex4Upper(n: nat): (s: string)
    requires n < 0x10000
    ensures |s| == 4
  {
    [HexUpper(n / 0x1000), HexUpper(n / 0x100 % 16), HexUpper(n / 0x10 % 16), HexUpper(n % 16)]
  }

  /** Quote and backslash are the bytes that get a backslash in front. */
  predicate NeedsBackslash(c: char) {
    c == '"' || c == '\\'
  }

  /**
   * The per-byte rule of `string_to_json_value`: a backslash before a quote
   * or backslash, then either `\u` and four uppercase hex digits for a
   * byte `isprint` rejects, or the byte itself.
   */
  function EscapeChar(c: char): (e: string)
    requires IsAsciiChar(c)
    ensures |e| == 1 + (if NeedsBackslash(c) then 1 else 0) + (if IsPrint(c) then 0 else 5)
  {
    (if NeedsBackslash(c) then "\\" else "")
      + (if !IsPrint(c) then "\\u" + Hex4Upper(c as int) else [c])
  }

  /** An unprintable byte becomes `\u` and four hex digits, all in upper case as `%04X` prints them. */
  lemma EscapeCharUpperHex(c: char)
    requires IsAsciiChar(c) && !IsPrint(c)
    ensures var e := EscapeChar(c);
      |e| == 6 && e[..2] == "\\u" && forall i :: 2 <= i < 6 ==> UpperHexDigit(e[i])
  {
    var h := Hex4Upper(c as int);
    assert !NeedsBackslash(c);
    assert EscapeChar(c) == "\\u" + h;
  }

  /** The extra bytes one input byte costs, as the measuring pass counts them. */
  function EscapeCost(c: char): nat {
    (if NeedsBackslash(c) then 1 else 0) + (if !IsPrint(c) then 5 else 0)
  }

  /** `escape_count` after the measuring pass over `s`. */
  function EscapeCount(s: string): nat {
    if s == [] then 0 else EscapeCost(s[0]) + EscapeCount(s[1..])
  }

  /** The escaped bytes between the two enclosing quotes. */
  function EscapeBody(s: string): (r: string)
    requires Ascii(s)
    ensures |r| == |s| + EscapeCount(s)
  {
    if s == [] then "" else EscapeChar(s[0]) + EscapeBody(s[1..])
  }

  /**
   * `string_to_json_value`: the escaped bytes between two quotes. Its length
   * is the length the C code allocates (less the terminator).
   */
  function StringToJsonValue(s: string): (r: string)
    requires Ascii(s)
    ensures |r| == |s| + EscapeCount(s) + 2
    ensures r[0] == '"' && r[|r| - 1] == '"'
  {
    "\"" + EscapeBody(s) + "\""
  }

  lemma {:induction false} EscapeCountAppend(a: string, b: string)
    ensures EscapeCount(a + b) == EscapeCount(a) + EscapeCount(b)
    decreases |a|
  {
    if a == [] {
      assert a + b == b;
    } else {
      assert (a + b)[0] == a[0];
      assert (a + b)[1..] == a[1..] + b;
      EscapeCountAppend(a[1..], b);
    }
  }

  lemma {:induction false} EscapeBodyAppend(a: string, b: string)
    requires Ascii(a) && Ascii(b)
    ensures Ascii(a + b)
    ensures EscapeBody(a + b) == EscapeBody(a) + EscapeBody(b)
    decreases |a|
  {
    assert Ascii(a + b) by {
      forall i | 0 <= i < |a + b| ensures IsAsciiChar((a + b)[i]) {
        if i < |a| { assert (a + b)[i] == a[i]; } else { assert (a + b)[i] == b[i - |a|]; }
      }
    }
    if a == [] {
      assert a + b == b;
    } else {
      assert (a + b)[1..] == a[1..] + b;
      EscapeBodyAppend(a[1..], b);
      assert (a + b)[0] == a[0];
    }
  }

  /** The measuring pass of `string_to_json_value`. */
  method CountEscapes(s: string) returns (escapeCount: nat)
    ensures escapeCount == EscapeCount(s)
  {
    escapeCount := 0;
    for i := 0 to |s|
      invariant escapeCount == EscapeCount(s[..i])
    {
      assert s[..i + 1] == s[..i] + [s[i]];
      EscapeCountAppend(s[..i], [s[i]]);
      if s[i] == '"' || s[i] == '\\' {
        escapeCount := escapeCount + 1;
      }
      if !IsPrint(s[i]) {
        escapeCount := escapeCount + 5;
      }
    }
    assert s[..|s|] == s;
  }

  /** The writing pass: the escape of every byte of `s`, from position `w` on. */
  method WriteEscapedBody(result: array<char>, w0: nat, s: string) returns (w: nat)
    requires Ascii(s)
    requires w0 + |s| + EscapeCount(s) <= result.Length
    modifies result
    ensures w == w0 + |s| + EscapeCount(s)
    ensures result[..w] == old(result[..w0]) + EscapeBody(s)
  {
    ghost var before := result[..w0];
    w := w0;
    assert s[0..] == s;
    for i := 0 to |s|
      invariant w + (|s| - i) + EscapeCount(s[i..]) == w0 + |s| + EscapeCount(s)
      invariant w <= result.Length
      invariant result[..w] == before + EscapeBody(s[..i])
    {
      w := WriteEscapedAt(result, w, s, i, before);
    }
    assert s[..|s|] == s;
  }

  /** One iteration of the writing pass: the escape of `s[i]` after the escapes of `s[..i]`. */
  method WriteEscapedAt(result: array<char>, w: nat, s: string, i: nat, ghost before: string) returns (w': nat)
    requires Ascii(s) && i < |s|
    requires w + (|s| - i) + EscapeCount(s[i..]) <= result.Length
    requires result[..w] == before + EscapeBody(s[..i])
    modifies result
    ensures w' + (|s| - (i + 1)) + EscapeCount(s[i + 1..]) == w + (|s| - i) + EscapeCount(s[i..])
    ensures result[..w'] == before + EscapeBody(s[..i + 1])
  {
    EscapeStep(s, i);
    w' := WriteEscaped(result, w, s[i]);
    assert result[..w'] == (before + EscapeBody(s[..i])) + EscapeChar(s[i]);
  }

  /** One iteration of the writing pass: the prefix grows by one byte and its escape by that byte's. */
  lemma EscapeStep(s: string, i: nat)
    requires Ascii(s) && i < |s|
    ensures Ascii(s[..i]) && Ascii(s[..i + 1])
    ensures EscapeBody(s[..i + 1]) == EscapeBody(s[..i]) + EscapeChar(s[i])
    ensures EscapeCount(s[i..]) == EscapeCost(s[i]) + EscapeCount(s[i + 1..])
    ensures |EscapeChar(s[i])| == 1 + EscapeCost(s[i])
  {
    assert s[..i + 1] == s[..i] + [s[i]];
    assert s[i..][0] == s[i] && s[i..][1..] == s[i + 1..];
    EscapeBodyAppend(s[..i], [s[i]]);
  }

  /**
   * The two passes of `string_to_json_value`: count escapes, allocate
   * `input_length + escape_count + 3` bytes, write, and check that the
   * write position lands exactly on the allocated size. The result is the
   * buffer without its terminating NUL.
   */
  method StringToJsonValueBuffer(s: string) returns (r: string)
    requires Ascii(s)
    ensures r == StringToJsonValue(s)
  {
    var escapeCount := CountEscapes(s);
    var size := |s| + escapeCount + 3;
    var result := new char[size];
    PutChar(result, 0, '"');
    assert result[..1] == "\"";
    var w := WriteEscapedBody(result, 1, s);
    ghost var body := result[..w];
    assert body == "\"" + EscapeBody(s);
    PutChar(result, w, '"');
    w := w + 1;
    ghost var quoted := result[..w];
    assert quoted == body + "\"";
    PutChar(result, w, 0 as char);
    w := w + 1;
    assert w == size;
    assert result[..w - 1] == result[..w][..w - 1] == quoted;
    r := result[..w - 1];
  }

  /** Writes the escape of one byte at position `w` and returns the next position. */
  method WriteEscaped(result: array<char>, w: nat, c: char) returns (w': nat)
    requires IsAsciiChar(c)
    requires w + |EscapeChar(c)| <= result.Length
    modifies result
    ensures w' == w + |EscapeChar(c)|
    ensures result[..w'] == old(result[..w]) + EscapeChar(c)
  {
    w' := w;
    if c == '"' || c == '\\' {
      result[w'] := '\\';
      w' := w' + 1;
    }
    if !IsPrint(c) {
      var h := Hex4Upper(c as int);
      result[w'] := '\\';
      result[w' + 1] := 'u';
      result[w' + 2] := h[0];
      result[w' + 3] := h[1];
      result[w' + 4] := h[2];
      result[w' + 5] := h[3];
      w' := w' + 6;
    } else {
      result[w'] := c;
      w' := w' + 1;
    }
  }

  /** `memcpy` of `v` to position `w`. */
  method CopyInto(result: array<char>, w: nat, v: string)
    requires w + |v| <= result.Length
    modifies result
    ensures result[..w + |v|] == old(result[..w]) + v
  {
    ghost var before := result[..w];
    var k := 0;
    while k < |v|
      invariant 0 <= k <= |v|
      invariant result[..w + k] == before + v[..k]
    {
      result[w + k] := v[k];
      assert v[..k + 1] == v[..k] + [v[k]];
      k := k + 1;
    }
    assert v[..|v|] == v;
  }

  /** The elements joined by commas, with no separator after the last. */
  function Join(vs: seq<string>): string {
    if |vs| == 0 then ""
    else if |vs| == 1 then vs[0]
    else vs[0] + "," + Join(vs[1..])
  }

  /** The sum of the elements' lengths. */
  function TotalLength(vs: seq<string>): nat {
    if vs == [] then 0 else |vs[0]| + TotalLength(vs[1..])
  }

  function Separators(count: nat): nat {
    if count == 0 then 0 else count - 1
  }

  /**
   * `json_value_array_to_json_list`: already-encoded values, comma-joined
   * in order inside brackets; the length is the one the C code allocates
   * (less the terminator).
   */
  function JsonValueArrayToJsonList(vs: seq<string>): (r: string)
    ensures |r| == TotalLength(vs) + Separators(|vs|) + 2
    ensures r[0] == '[' && r[|r| - 1] == ']'
  {
    JoinLength(vs);
    "[" + Join(vs) + "]"
  }

  lemma {:induction false} JoinLength(vs: seq<string>)
    ensures |Join(vs)| == TotalLength(vs) + Separators(|vs|)
    decreases |vs|
  {
    if |vs| == 1 {
      assert vs[1..] == [];
    } else if |vs| > 1 {
      JoinLength(vs[1..]);
    }
  }

  /** Appending a value to the list appends one separator and the value. */
  lemma {:induction false} JoinSnoc(vs: seq<string>, v: string)
    ensures Join(vs + [v]) == if vs == [] then v else Join(vs) + "," + v
    decreases |vs|
  {
    if |vs| == 1 {
      assert (vs + [v])[1..] == [v];
    } else if |vs| > 1 {
      assert (vs + [v])[1..] == vs[1..] + [v];
      JoinSnoc(vs[1..], v);
    }
  }

  lemma TotalLengthSnoc(vs: seq<string>, v: string)
    ensures TotalLength(vs + [v]) == TotalLength(vs) + |v|
  {
    if vs != [] {
      assert (vs + [v])[1..] == vs[1..] + [v];
      TotalLengthSnoc(vs[1..], v);
    }
  }

  /**
   * What the list loop has written after `i` values: the first `i` values
   * joined, plus the comma that precedes the next value if there is one.
   */
  function Written(vs: seq<string>, i: nat): string
    requires i <= |vs|
  {
    if i == 0 then "" else if i < |vs| then Join(vs[..i]) + "," else Join(vs)
  }

  lemma WrittenStep(vs: seq<string>, i: nat)
    requires i < |vs|
    ensures Written(vs, i + 1) == Written(vs, i) + vs[i] + (if i + 1 < |vs| then "," else "")
  {
    assert vs[..i + 1] == vs[..i] + [vs[i]];
    JoinSnoc(vs[..i], vs[i]);
    if i + 1 == |vs| {
      assert vs[..i + 1] == vs;
    }
  }

  /** The written prefix leaves exactly room for the rest, the bracket and the NUL. */
  lemma WrittenLength(vs: seq<string>, i: nat)
    requires i <= |vs|
    ensures |Written(vs, i)| + TotalLength(vs[i..]) + (if i < |vs| then |vs| - i - 1 else 0)
            == TotalLength(vs) + Separators(|vs|)
  {
    assert vs[..i] + vs[i..] == vs;
    TotalLengthAppend(vs[..i], vs[i..]);
    JoinLength(vs[..i]);
    JoinLength(vs);
  }

  /** The written prefix never outgrows the measured length. */
  lemma WrittenFits(vs: seq<string>, i: nat)
    requires i <= |vs|
    ensures |Written(vs, i)| <= TotalLength(vs) + Separators(|vs|)
  {
    WrittenLength(vs, i);
  }

  /** The measuring loop of `json_value_array_to_json_list`. */
  method MeasureValues(vs: seq<string>) returns (total: nat)
    ensures total == TotalLength(vs)
  {
    total := 0;
    for i := 0 to |vs|
      invariant total == TotalLength(vs[..i])
    {
      assert vs[..i + 1] == vs[..i] + [vs[i]];
      TotalLengthSnoc(vs[..i], vs[i]);
      total := total + |vs[i]|;
    }
    assert vs[..|vs|] == vs;
  }

  /** The copying loop: each value, then a comma when another value follows. */
  method WriteValues(result: array<char>, vs: seq<string>) returns (w: nat)
    requires 1 + TotalLength(vs) + Separators(|vs|) <= result.Length
    modifies result
    ensures w == 1 + |Join(vs)| <= result.Length
    ensures result[..w] == old(result[..1]) + Join(vs)
  {
    ghost var before := result[..1];
    w := 1;
    for i := 0 to |vs|
      invariant w == 1 + |Written(vs, i)| <= result.Length
      invariant result[..w] == before + Written(vs, i)
    {
      WrittenFits(vs, i + 1);
      w := WriteValueAt(result, w, vs, i, before);
    }
  }

  /** One iteration of the copying loop: value `i`, and the comma if another value follows. */
  method WriteValueAt(result: array<char>, w: nat, vs: seq<string>, i: nat, ghost before: string) returns (w': nat)
    requires i < |vs|
    requires w == 1 + |Written(vs, i)|
    requires 1 + |Written(vs, i + 1)| <= result.Length
    requires w <= result.Length && result[..w] == before + Written(vs, i)
    modifies result
    ensures w' == 1 + |Written(vs, i + 1)|
    ensures result[..w'] == before + Written(vs, i + 1)
  {
    WrittenStep(vs, i);
    var comma := i + 1 < |vs|;
    w' := AppendValue(result, w, vs[i], comma);
    assert before + Written(vs, i + 1) == (before + Written(vs, i)) + vs[i] + (if comma then "," else "");
  }

  /** Copies `v` after the first `w` characters, then a comma when asked. */
  method AppendValue(result: array<char>, w: nat, v: string, comma: bool) returns (w': nat)
    requires w + |v| + (if comma then 1 else 0) <= result.Length
    modifies result
    ensures w' == w + |v| + (if comma then 1 else 0)
    ensures result[..w'] == old(result[..w]) + v + (if comma then "," else "")
  {
    CopyInto(result, w, v);
    w' := w + |v|;
    if comma {
      ghost var copied := result[..w'];
      PutChar(result, w', ',');
      w' := w' + 1;
      assert result[..w'] == copied + ",";
    }
  }

  /** Stores one character after the first `w`, which stay as they were. */
  method PutChar(result: array<char>, w: nat, c: char)
    requires w < result.Length
    modifies result
    ensures result[..w + 1] == old(result[..w]) + [c]
  {
    result[w] := c;
  }

  /**
   * The C routine `json_value_array_to_json_list`: measure, allocate
   * `sum + separators + 3` bytes, open the bracket, copy the values, close
   * the bracket and terminate; the buffer is filled exactly.
   */
  method JsonValueArrayToJsonListBuffer(vs: seq<string>) returns (r: string)
    ensures r == JsonValueArrayToJsonList(vs)
  {
    var count := |vs|;
    var resultLength := MeasureValues(vs);
    resultLength := resultLength + (if count == 0 then 0 else count - 1) + 3;
    var result := new char[resultLength];
    result[0] := '[';
    var w := WriteValues(result, vs);
    JoinLength(vs);
    result[w] := ']';
    w := w + 1;
    result[w] := 0 as char;
    w := w + 1;
    assert w == resultLength;
    r := result[..w - 1];
  }

  lemma {:induction false} TotalLengthAppend(a: seq<string>, b: seq<string>)
    ensures TotalLength(a + b) == TotalLength(a) + TotalLength(b)
    decreases |a|
  {
    if a == [] {
      assert a + b == b;
    } else {
      assert (a + b)[0] == a[0];
      assert (a + b)[1..] == a[1..] + b;
      TotalLengthAppend(a[1..], b);
    }
  }

  /** Every element escaped, in order. */
  function EscapeAll(ss: seq<string>): (r: seq<string>)
    requires AllAscii(ss)
    ensures |r| == |ss|
    ensures forall i :: 0 <= i < |ss| ==> r[i] == StringToJsonValue(ss[i])
  {
    if ss == [] then [] else [StringToJsonValue(ss[0])] + EscapeAll(ss[1..])
  }

  /**
   * `string_array_to_json_list`: escape each string, then build the list;
   * the list is bracketed and empty exactly when there are no strings.
   */
  function StringArrayToJsonList(ss: seq<string>): (r: string)
    requires AllAscii(ss)
    ensures |r| >= 2 && r[0] == '[' && r[|r| - 1] == ']'
    ensures |r| == 2 <==> ss == []
  {
    var es := EscapeAll(ss);
    assert ss != [] ==> TotalLength(es) >= |es[0]| >= 2;
    JsonValueArrayToJsonList(es)
  }

  /**
   * `bytes_to_hex_string`: two lowercase hex digits per byte, high nibble
   * first, no separators.
   */
  function BytesToHexString(bs: seq<byte>): (r: string)
    ensures |r| == 2 * |bs|
    ensures forall i :: 0 <= i < |bs| ==> r[2 * i] == HexLower(bs[i] / 16) && r[2 * i + 1] == HexLower(bs[i] % 16)
  {
    if bs == [] then ""
    else
      var r := [HexLower(bs[0] / 16), HexLower(bs[0] % 16)] + BytesToHexString(bs[1..]);
      assert forall i :: 1 <= i < |bs| ==> r[2 * i] == BytesToHexString(bs[1..])[2 * (i - 1)];
      r
  }

  /**
   * The C loop of `bytes_to_hex_string`: `sprintf("%02x")` into offset
   * `2 * i` for each byte.
   */
  method BytesToHexStringBuffer(bs: seq<byte>) returns (r: string)
    ensures r == BytesToHexString(bs)
  {
    var result := new char[2 * |bs| + 1];
    ghost var h := BytesToHexString(bs);
    for i := 0 to |bs|
      invariant result[..2 * i] == h[..2 * i]
    {
      result[2 * i] := HexLower(bs[i] / 16);
      result[2 * i + 1] := HexLower(bs[i] % 16);
      result[2 * i + 2] := 0 as char;
      assert h[..2 * (i + 1)] == h[..2 * i] + [h[2 * i], h[2 * i + 1]];
      assert result[..2 * (i + 1)] == result[..2 * i] + [result[2 * i], result[2 * i + 1]];
    }
    assert h[..2 * |bs|] == h;
    r := result[..2 * |bs|];
  }
}
