/**
 * The buffered report of `file_report.c`. Events are copied into a growable
 * array of string pointers whose capacity starts at 1 and doubles whenever
 * the next insertion would leave no free slot, so that at teardown slot
 * `count` can always take the NULL that terminates the array. Teardown
 * writes one document holding the process metadata and every event in
 * insertion order to `<dir>/log_<pid>.json` (main thread) or
 * `<dir>/log_<pid>_<tid>.json` (any other thread).
 *
 * `Report` and its functions are the abstract state; `ReportBuffer` is the
 * array-and-counter implementation, proved to follow it.
 */
module FileReport {
  import opened Base
  import opened Scan
  import Decimal
  import opened JsonUtil
  import opened Decoders

  /** The report state: output directory, slots allocated, events added so far. */
  datatype Report = Report(outputPath: string, capacity: nat, entries: seq<string>)

  predicate IsPow2(n: nat)
    decreases n
  {
    n == 1 || (n > 1 && n % 2 == 0 && IsPow2(n / 2))
  }

  /**
   * The invariant of the pointer array: a free slot remains after the last
   * entry, the capacity is a power of two, and at most twice the count (1
   * while the report is empty).
   */
  predicate Valid(r: Report) {
    && |r.entries| < r.capacity
    && IsPow2(r.capacity)
    && r.capacity <= (if |r.entries| == 0 then 1 else 2 * |r.entries|)
  }

  /** `file_report_create`: one slot, no entries. */
  function Create(outputPath: string): (r: Report)
    ensures Valid(r)
    ensures r.entries == [] && r.outputPath == outputPath
  {
    Report(outputPath, 1, [])
  }

  lemma DoublePow2(n: nat)
    requires IsPow2(n)
    ensures IsPow2(2 * n)
  {
    assert (2 * n) / 2 == n;
  }

  /**
   * `file_report_add`: double the capacity when `count + 1 >= capacity`,
   * then store a copy of the event in the next slot.
   */
  function Add(r: Report, event: string): (r': Report)
    requires Valid(r)
    ensures Valid(r')
    ensures r'.entries == r.entries + [event]
    ensures r'.outputPath == r.outputPath
    ensures r'.capacity == r.capacity || r'.capacity == 2 * r.capacity
  {
    if |r.entries| + 1 >= r.capacity then
      DoublePow2(r.capacity);
      Report(r.outputPath, r.capacity * 2, r.entries + [event])
    else
      Report(r.outputPath, r.capacity, r.entries + [event])
  }

  /** A sequence of `add` calls, in order: it keeps the invariant and appends exactly the events, in call order. */
  function AddAll(r: Report, events: seq<string>): (r': Report)
    requires Valid(r)
    ensures Valid(r')
    ensures r'.entries == r.entries + events
    ensures r'.outputPath == r.outputPath
    decreases |events|
  {
    if events == [] then r
    else
      assert r.entries + [events[0]] + events[1..] == r.entries + events;
      AddAll(Add(r, events[0]), events[1..])
  }

  lemma {:induction false} Pow2Gap(p: nat, c: nat)
    requires IsPow2(p) && IsPow2(c) && p < c
    ensures 2 * p <= c
    decreases c
  {
    if p > 1 {
      Pow2Gap(p / 2, c / 2);
    }
  }

  /**
   * The invariant pins the capacity down: it is the least power of two
   * strictly above the number of entries.
   */
  lemma CapacityIsLeastPow2Above(r: Report, p: nat)
    requires Valid(r)
    requires IsPow2(p) && p > |r.entries|
    ensures r.capacity <= p
  {
    if p < r.capacity {
      Pow2Gap(p, r.capacity);
    }
  }

  /**
   * `file_report_current_filepath`: the per-process (or per-thread) log
   * file. The name records the pid, and the tid exactly when it differs
   * from the pid.
   */
  function CurrentFilepath(outputPath: string, pid: int, tid: int): (path: string)
    ensures ParseFilepath(outputPath, path) == Some((pid, if pid == tid then None else Some(tid)))
  {
    if pid == tid then
      MainThreadFilepathParses(outputPath, pid);
      outputPath + "/log_" + Decimal.IntToString(pid) + ".json"
    else
      OtherThreadFilepathParses(outputPath, pid, tid);
      outputPath + "/log_" + Decimal.IntToString(pid) + "_" + Decimal.IntToString(tid) + ".json"
  }

  /** Reads a log file name back: the pid, and the tid when it is not the main thread. */
  function ParseFilepath(outputPath: string, path: string): Option<(int, Option<int>)> {
    var r0 :- StripPrefix(outputPath + "/log_", path);
    var p :- Decimal.ReadInt(r0);
    if p.1 == ".json" then Some((p.0, None))
    else
      var r1 :- StripPrefix("_", p.1);
      var t :- Decimal.ReadInt(r1);
      if t.1 == ".json" then Some((p.0, Some(t.0))) else None
  }

  lemma MainThreadFilepathParses(outputPath: string, pid: int)
    ensures ParseFilepath(outputPath, outputPath + "/log_" + Decimal.IntToString(pid) + ".json") == Some((pid, None))
  {
    var pre := outputPath + "/log_";
    var ps := Decimal.IntToString(pid);
    assert pre + ps + ".json" == pre + (ps + ".json");
    StripPrefixOfConcat(pre, ps + ".json");
    Decimal.ReadIntRoundTrip(pid, ".json");
  }

  lemma OtherThreadFilepathParses(outputPath: string, pid: int, tid: int)
    ensures ParseFilepath(outputPath, outputPath + "/log_" + Decimal.IntToString(pid) + "_" + Decimal.IntToString(tid) + ".json")
            == Some((pid, Some(tid)))
  {
    var pre := outputPath + "/log_";
    var ps := Decimal.IntToString(pid);
    var ts := Decimal.IntToString(tid) + ".json";
    var tail := "_" + ts;
    assert pre + ps + "_" + Decimal.IntToString(tid) + ".json" == pre + (ps + tail);
    StripPrefixOfConcat(pre, ps + tail);
    Decimal.ReadIntRoundTrip(pid, tail);
    assert tail != ".json" by { assert tail[0] == '_'; }
    StripPrefixOfConcat("_", ts);
    Decimal.ReadIntRoundTrip(tid, ".json");
  }

  /** Different processes, or different threads of one process, never share a log file. */
  lemma CurrentFilepathDistinguishes(outputPath: string, pid1: int, tid1: int, pid2: int, tid2: int)
    requires CurrentFilepath(outputPath, pid1, tid1) == CurrentFilepath(outputPath, pid2, tid2)
    ensures pid1 == pid2
    ensures tid1 == tid2
  {
  }

  const DOC_PID := "{\"pid\":"
  const DOC_PPID := ",\"ppid\":"
  const DOC_ARGV := ",\"argv\":"
  const DOC_ENVP := ",\"envp\":"
  const DOC_LOG := ",\"log\":"
  const DOC_END := "}\n"

  /**
   * The document `file_report_destroy` writes: pid, parent pid, the escaped
   * argument and environment vectors, and the events as stored (not
   * escaped again), in insertion order, followed by a newline. It reads
   * back as the metadata unchanged and, as its log, the list encoding of
   * the events.
   */
  function Document(pid: int, ppid: int, argv: seq<string>, envp: seq<string>, entries: seq<string>): (doc: string)
    requires AllAscii(argv) && AllAscii(envp)
    ensures ParseDocument(doc) == Some(DocumentFields(pid, ppid, argv, envp, JsonValueArrayToJsonList(entries)))
  {
    DocumentReadsBack(pid, ppid, argv, envp, entries);
    Field(DOC_PID, Decimal.IntToString(pid),
    Field(DOC_PPID, Decimal.IntToString(ppid),
    Field(DOC_ARGV, StringArrayToJsonList(argv),
    Field(DOC_ENVP, StringArrayToJsonList(envp),
    Field(DOC_LOG, JsonValueArrayToJsonList(entries), DOC_END)))))
  }

  /** The fields of a report document; the log stays as text because its events are raw. */
  datatype DocumentFields = DocumentFields(pid: int, ppid: int, argv: seq<string>, envp: seq<string>, log: string)

  function ParseDocument(doc: string): Option<DocumentFields> {
    var pid :- ReadIntField(DOC_PID, doc);
    var ppid :- ReadIntField(DOC_PPID, pid.1);
    var argv :- ReadListField(DOC_ARGV, ppid.1);
    var envp :- ReadListField(DOC_ENVP, argv.1);
    var log :- ReadLastField(DOC_LOG, envp.1, DOC_END);
    Some(DocumentFields(pid.0, ppid.0, argv.0, envp.0, log))
  }

  lemma DocumentReadsBack(pid: int, ppid: int, argv: seq<string>, envp: seq<string>, entries: seq<string>)
    requires AllAscii(argv) && AllAscii(envp)
    ensures ParseDocument(
      Field(DOC_PID, Decimal.IntToString(pid),
      Field(DOC_PPID, Decimal.IntToString(ppid),
      Field(DOC_ARGV, StringArrayToJsonList(argv),
      Field(DOC_ENVP, StringArrayToJsonList(envp),
      Field(DOC_LOG, JsonValueArrayToJsonList(entries), DOC_END))))))
            == Some(DocumentFields(pid, ppid, argv, envp, JsonValueArrayToJsonList(entries)))
  {
    var l := JsonValueArrayToJsonList(entries);
    var t4 := Field(DOC_LOG, l, DOC_END);
    var t3 := Field(DOC_ENVP, StringArrayToJsonList(envp), t4);
    var t2 := Field(DOC_ARGV, StringArrayToJsonList(argv), t3);
    var t1 := Field(DOC_PPID, Decimal.IntToString(ppid), t2);
    ReadIntFieldRoundTrip(DOC_PID, pid, t1);
    ReadIntFieldRoundTrip(DOC_PPID, ppid, t2);
    ReadListFieldRoundTrip(DOC_ARGV, argv, t3);
    ReadListFieldRoundTrip(DOC_ENVP, envp, t4);
    ReadLastFieldRoundTrip(DOC_LOG, l, DOC_END);
  }

  /**
   * Teardown after creating a report and adding events: the document's log
   * is the list of exactly those events, in call order, each once.
   */
  lemma BufferedEndToEnd(outputPath: string, pid: int, ppid: int, argv: seq<string>, envp: seq<string>, events: seq<string>)
    requires AllAscii(argv) && AllAscii(envp)
    ensures var r := AddAll(Create(outputPath), events);
      && Valid(r)
      && ParseDocument(Document(pid, ppid, argv, envp, r.entries))
         == Some(DocumentFields(pid, ppid, argv, envp, JsonValueArrayToJsonList(events)))
  {
    assert [] + events == events;
  }

  /**
   * The array-backed report. A slot holding `None` stands for a NULL
   * pointer; `Valid` ties the object to the abstract `Report`.
   */
  class ReportBuffer {
    const outputPath: string
    var slots: array<Option<string>>
    var count: nat

    ghost predicate Consistent()
      reads this, slots
    {
      && count < slots.Length
      && (forall i :: 0 <= i < count ==> slots[i].Some?)
      && Valid(Model())
    }

    /** The events stored in the first `count` slots. */
    function Stored(): seq<string>
      reads this, slots
      requires count <= slots.Length
      requires forall i :: 0 <= i < count ==> slots[i].Some?
    {
      seq(count, i reads this, slots requires 0 <= i < count && count <= slots.Length && slots[i].Some? => slots[i].value)
    }

    function Model(): Report
      reads this, slots
      requires count <= slots.Length
      requires forall i :: 0 <= i < count ==> slots[i].Some?
    {
      Report(outputPath, slots.Length, Stored())
    }

    constructor(outputPath: string)
      ensures Consistent()
      ensures Model() == Create(outputPath)
    {
      this.outputPath := outputPath;
      slots := new Option<string>[1](_ => None);
      count := 0;
      new;
      assert Stored() == [];
    }

    /** `realloc` to twice the size: the old contents first, then empty slots. */
    static method Reallocated(a: array<Option<string>>) returns (b: array<Option<string>>)
      ensures fresh(b)
      ensures b.Length == 2 * a.Length
      ensures forall j :: 0 <= j < a.Length ==> b[j] == a[j]
    {
      b := new Option<string>[2 * a.Length](_ => None);
      for i := 0 to a.Length
        invariant forall j :: 0 <= j < i ==> b[j] == a[j]
      {
        b[i] := a[i];
      }
    }

    /** `file_report_add`, with `realloc` as allocate-and-copy. */
    method Append(event: string)
      requires Consistent()
      modifies this, slots
      ensures Consistent()
      ensures Model() == Add(old(Model()), event)
    {
      ghost var before := Model();
      if count + 1 >= slots.Length {
        slots := Reallocated(slots);
      }
      slots[count] := Some(event);
      count := count + 1;
      assert Stored() == before.entries + [event];
    }

    /**
     * The content part of `file_report_destroy`: write the NULL sentinel
     * into slot `count`, walk the array up to the NULL, and build the
     * document.
     */
    method Destroy(pid: int, ppid: int, argv: seq<string>, envp: seq<string>) returns (doc: string)
      requires Consistent()
      requires AllAscii(argv) && AllAscii(envp)
      modifies slots
      ensures doc == Document(pid, ppid, argv, envp, old(Model()).entries)
    {
      ghost var entries := Stored();
      slots[count] := None;
      var values: seq<string> := [];
      var i := 0;
      while slots[i].Some?
        invariant 0 <= i <= count
        invariant values == entries[..i]
        decreases count - i
      {
        values := values + [slots[i].value];
        i := i + 1;
      }
      assert values == entries;
      doc := Document(pid, ppid, argv, envp, values);
    }
  }
}
