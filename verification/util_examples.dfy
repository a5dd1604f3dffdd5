/**
 * The expected outputs of the C unit tests in `main.test.c`, derived from
 * the model of `util.c` and `file_report.c`.
 */
module UtilExamples {
  import opened Base
  import opened JsonUtil
  import FileReport
  import LinkName

  const BELL: char := 7 as char

  /** Characters `string_to_json_value` copies as they are. */
  predicate Plain(s: string) {
    forall i :: 0 <= i < |s| ==> IsPrint(s[i]) && !NeedsBackslash(s[i])
  }

  /** A string without quotes, backslashes or unprintable bytes is only enclosed in quotes. */
  lemma {:induction false} PlainUnchanged(s: string)
    requires Plain(s)
    ensures Ascii(s) && EscapeBody(s) == s && StringToJsonValue(s) == "\"" + s + "\""
    decreases |s|
  {
    if s != [] {
      PlainUnchanged(s[1..]);
      assert EscapeChar(s[0]) == [s[0]];
      assert s == [s[0]] + s[1..];
    }
  }

  /** `test_empty_string_to_json_value` and `test_simple_string_to_json_value`. */
  lemma PlainStrings()
    ensures StringToJsonValue("") == "\"\""
    ensures StringToJsonValue("test") == "\"test\""
  {
    PlainUnchanged("test");
  }

  /** `test_string_to_json_value_escape_quotes` and `..._escape_backslash`. */
  lemma QuoteAndBackslash()
    ensures StringToJsonValue("\"") == "\"\\\"\""
    ensures StringToJsonValue("\\") == "\"\\\\\""
  {
  }

  /** `test_string_to_json_value_escape_control_characters`: BEL becomes `\u0007`. */
  lemma ControlCharacter()
    ensures StringToJsonValue([BELL]) == "\"\\u0007\""
  {
    assert Hex4Upper(7) == "0007";
    assert EscapeChar(BELL) == "\\u0007";
    assert EscapeBody([BELL]) == EscapeChar(BELL) + EscapeBody([]);
  }

  /** `%04X` prints hex letters in upper case: 0x1F becomes `\u001F`. */
  lemma UnitSeparatorEscape()
    ensures StringToJsonValue([0x1F as char]) == "\"\\u001F\""
  {
    assert Hex4Upper(0x1F) == "001F";
    assert EscapeBody([0x1F as char]) == EscapeChar(0x1F as char) + EscapeBody([]);
  }

  /** DEL, 0x7F, is not printable either: it becomes `\u007F`. */
  lemma DeleteEscape()
    ensures StringToJsonValue([0x7F as char]) == "\"\\u007F\""
  {
    assert Hex4Upper(0x7F) == "007F";
    assert EscapeBody([0x7F as char]) == EscapeChar(0x7F as char) + EscapeBody([]);
  }

  /** `test_empty_array_to_json_array`. */
  lemma EmptyArray()
    ensures StringArrayToJsonList([]) == "[]"
  {
  }

  /** Two strings with nothing to escape are quoted and joined by one comma. */
  lemma TwoPlainStrings(a: string, b: string)
    requires Plain(a) && Plain(b)
    ensures AllAscii([a, b])
    ensures StringArrayToJsonList([a, b]) == "[\"" + a + "\",\"" + b + "\"]"
  {
    PlainUnchanged(a);
    PlainUnchanged(b);
    var qa := "\"" + a + "\"";
    var qb := "\"" + b + "\"";
    var e := EscapeAll([a, b]);
    assert e == [qa, qb];
    assert Join(e) == qa + "," + qb by {
      assert e[1..] == [qb];
    }
    ListReassoc(a, b);
  }

  lemma ListReassoc(a: string, b: string)
    ensures "[" + ("\"" + a + "\"" + "," + ("\"" + b + "\"")) + "]" == "[\"" + a + "\",\"" + b + "\"]"
  {
    var lhs := "[" + ("\"" + a + "\"" + "," + ("\"" + b + "\"")) + "]";
    var rhs := "[\"" + a + "\",\"" + b + "\"]";
    assert |lhs| == |rhs|;
    forall i | 0 <= i < |lhs| ensures lhs[i] == rhs[i] {
      if i < 2 {
      } else if i < 2 + |a| {
        assert lhs[i] == a[i - 2] == rhs[i];
      } else if i < 5 + |a| {
      } else if i < 5 + |a| + |b| {
        assert lhs[i] == b[i - 5 - |a|] == rhs[i];
      }
    }
  }

  /** `test_array_to_json_array`: each string quoted, comma-separated. */
  lemma TwoStrings()
    ensures StringArrayToJsonList(["test0", "test1"]) == "[\"test0\",\"test1\"]"
  {
    assert Plain("test0") && Plain("test1");
    TwoPlainStrings("test0", "test1");
    assert "[\"" + "test0" + "\",\"" + "test1" + "\"]" == "[\"test0\",\"test1\"]";
  }

  /** `test_array_to_json_array_escape`: a backslash and a quote, both escaped. */
  lemma EscapedArrayElement()
    ensures StringArrayToJsonList(["\\\""]) == "[\"\\\\\\\"\"]"
  {
    assert StringToJsonValue("\\\"") == "\"\\\\\\\"\"" by {
      assert EscapeBody("\\\"") == EscapeChar('\\') + EscapeChar('"') + "";
    }
    assert EscapeAll(["\\\""]) == ["\"\\\\\\\"\""];
  }

  /** `test_bytes_to_hex_string`: lowercase digits, two per byte. */
  lemma HexBytes()
    ensures BytesToHexString([0x2b, 0x41, 0x7f, 0x80, 0xff]) == "2b417f80ff"
  {
  }

  /** `test_file_report`: after adding `test0` and `test1` the log is written as `[test0,test1]`. */
  lemma FileReportLog(outputPath: string)
    ensures TestEntries(outputPath) == ["test0", "test1"]
    ensures JsonValueArrayToJsonList(TestEntries(outputPath)) == "[test0,test1]"
  {
    assert [] + ["test0", "test1"] == ["test0", "test1"];
  }

  function TestEntries(outputPath: string): seq<string> {
    FileReport.AddAll(FileReport.Create(outputPath), ["test0", "test1"]).entries
  }

  /** `test_standard_linkname`: the three standard descriptors, whatever the links. */
  lemma StandardLinknames(links: LinkName.Links)
    ensures LinkName.LinknameOf(links, 0) == LinkName.Resolved("stdin")
    ensures LinkName.LinknameOf(links, 1) == LinkName.Resolved("stdout")
    ensures LinkName.LinknameOf(links, 2) == LinkName.Resolved("stderr")
  {
  }

  /**
   * `test_linkname_file`: a descriptor other than 0, 1 and 2 whose `/proc`
   * link names a file resolves to that file's name.
   */
  lemma LinknameFile(links: LinkName.Links, fd: int, filename: string)
    requires fd != 0 && fd != 1 && fd != 2
    requires links == map[LinkName.ProcFdPath(fd) := filename]
    requires |filename| <= LinkName.MAX_BUFFER_SIZE
    ensures LinkName.LinknameOf(links, fd) == LinkName.Resolved(filename)
  {
  }
}
