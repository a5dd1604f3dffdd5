/**
 * `linkname_of` and `read_linkname_of` of `util.c`: descriptors 0, 1 and 2
 * get fixed names; any other descriptor is resolved by reading the link
 * `/proc/self/fd/<fd>` into a buffer that starts at 1024 bytes and doubles
 * until the target fits, aborting once the size would pass 1 MiB.
 *
 * `readlink` is an oracle: the process's links are a map from link path to
 * target, and a missing entry is a failing call.
 */
module LinkName {
  import opened Base
  import Decimal

  const INITIAL_BUFFER_SIZE: nat := 1024
  const MAX_BUFFER_SIZE: nat := 1048576

  /** The symbolic links `readlink` can see, from link path to target. */
  type Links = map<string, string>

  /** What `readlink(path, buffer, max)` reports: a byte count (negative on failure) and the bytes. */
  datatype ReadlinkReply = ReadlinkReply(count: int, bytes: string)

  /**
   * `readlink` places at most `max` bytes of the target, without a
   * terminator, and returns how many it placed; -1 when there is no link.
   */
  function Readlink(links: Links, path: string, max: nat): (r: ReadlinkReply)
    ensures r.count < 0 <==> path !in links
    ensures r.count >= 0 ==> r.count <= max && |r.bytes| == r.count
  {
    if path !in links then ReadlinkReply(-1, "")
    else
      var target := links[path];
      var n := if |target| < max then |target| else max;
      ReadlinkReply(n, target[..n])
  }

  /** What `call_readlink` does with the reply. */
  datatype CallOutcome = Fits(name: string) | Truncated | Failed

  /**
   * `call_readlink`: a failing `readlink` aborts, a reply that fills the
   * whole buffer counts as truncated, anything shorter is the full name.
   */
  function CallReadlink(links: Links, path: string, max: nat): (r: CallOutcome)
    ensures r.Failed? <==> path !in links
    ensures r.Fits? <==> path in links && |links[path]| < max
    ensures r.Fits? ==> r.name == links[path]
    ensures r.Truncated? <==> path in links && |links[path]| >= max
  {
    var reply := Readlink(links, path, max);
    if reply.count < 0 then Failed
    else if reply.count >= max then Truncated
    else
      assert reply.bytes == links[path];
      Fits(reply.bytes)
  }

  /** A resolved name, or a call that ends the process through `abort`. */
  datatype LinkResult = Resolved(name: string) | Aborted

  /** The result of the retry loop, with the number of `readlink` calls it made. */
  datatype ReadOutcome = ReadOutcome(result: LinkResult, attempts: nat)

  /** The buffer size of attempt `k` (counting from 0): 1024 * 2^k, each retry doubling the last. */
  function BufferSize(k: nat): (r: nat)
    ensures r >= INITIAL_BUFFER_SIZE
  {
    if k == 0 then INITIAL_BUFFER_SIZE else 2 * BufferSize(k - 1)
  }

  lemma {:induction false} BufferSizeMonotone(j: nat, k: nat)
    requires j <= k
    ensures BufferSize(j) <= BufferSize(k)
    decreases k
  {
    if j < k {
      BufferSizeMonotone(j, k - 1);
    }
  }

  /** Sizes up to attempt 10 stay within the cap; attempt 10 is exactly 1 MiB. */
  lemma BufferSizeWithinCap(k: nat)
    ensures BufferSize(k) <= MAX_BUFFER_SIZE <==> k <= 10
    ensures BufferSize(10) == MAX_BUFFER_SIZE
  {
    assert BufferSize(10) == MAX_BUFFER_SIZE;
    if k <= 10 {
      BufferSizeMonotone(k, 10);
    } else {
      BufferSizeMonotone(11, k);
      assert BufferSize(11) == 2 * MAX_BUFFER_SIZE;
    }
  }

  /** `/proc/self/fd/<fd>`, the link naming what a descriptor refers to. */
  function ProcFdPath(fd: int): string {
    "/proc/self/fd/" + Decimal.IntToString(fd)
  }

  /**
   * The `do ... while` loop of `read_linkname_of`, from attempt `k` on:
   * try a buffer of `BufferSize(k) + 1` bytes; on truncation double the
   * size and abort if it now exceeds the cap.
   */
  function ReadLoop(links: Links, path: string, k: nat): (r: ReadOutcome)
    requires k <= 10
    ensures 1 <= r.attempts && k + r.attempts <= 11
    ensures r.result.Resolved? <==> path in links && |links[path]| <= MAX_BUFFER_SIZE
    ensures r.result.Resolved? ==> r.result.name == links[path]
    ensures r.result.Resolved? ==> |links[path]| <= BufferSize(k + r.attempts - 1)
    ensures r.result.Resolved? && r.attempts > 1 ==> |links[path]| > BufferSize(k + r.attempts - 2)
    decreases 10 - k
  {
    BufferSizeWithinCap(k);
    match CallReadlink(links, path, BufferSize(k) + 1)
    case Failed => ReadOutcome(Aborted, 1)
    case Fits(name) => ReadOutcome(Resolved(name), 1)
    case Truncated =>
      BufferSizeWithinCap(k + 1);
      if BufferSize(k + 1) > MAX_BUFFER_SIZE then ReadOutcome(Aborted, 1)
      else
        var rest := ReadLoop(links, path, k + 1);
        ReadOutcome(rest.result, rest.attempts + 1)
  }

  /** `read_linkname_of`: the loop from the initial 1024-byte buffer. */
  function ReadLinknameOf(links: Links, fd: int): (r: ReadOutcome)
    ensures r.attempts <= 11
    ensures r.result.Resolved? <==> ProcFdPath(fd) in links && |links[ProcFdPath(fd)]| <= MAX_BUFFER_SIZE
    ensures r.result.Resolved? ==> r.result.name == links[ProcFdPath(fd)]
  {
    ReadLoop(links, ProcFdPath(fd), 0)
  }

  /**
   * `linkname_of`: the standard streams by name, whatever they are
   * connected to; every other descriptor through its `/proc` link.
   */
  function LinknameOf(links: Links, fd: int): (r: LinkResult)
    ensures fd == 0 ==> r == Resolved("stdin")
    ensures fd == 1 ==> r == Resolved("stdout")
    ensures fd == 2 ==> r == Resolved("stderr")
    ensures fd !in {0, 1, 2} ==>
      (r.Resolved? <==> ProcFdPath(fd) in links && |links[ProcFdPath(fd)]| <= MAX_BUFFER_SIZE)
    ensures fd !in {0, 1, 2} && r.Resolved? ==> r.name == links[ProcFdPath(fd)]
  {
    match fd
    case 0 => Resolved("stdin")
    case 1 => Resolved("stdout")
    case 2 => Resolved("stderr")
    case _ => ReadLinknameOf(links, fd).result
  }
}
