/**
 * `Build::verify_integrity`, identical in `analyze_base/src/build.rs` and
 * `tracker/track/src/build.rs`. It fails when two processes share a pid
 * (this check runs first) and when more than one process has a parent pid
 * that is not among the recorded pids. That is all it checks: its doc
 * comment speaks of a single connected component, which the count of
 * parentless processes does not establish.
 *
 * `VerifyIntegrity` follows the code (a map of pids compared by size, a
 * fold over the processes); the predicates below it are the independent
 * statement of what is accepted, and the contract of `VerifyIntegrity`
 * connects them.
 */
module Integrity {

  /** The two fields of a recorded process that the check looks at. */
  datatype Ids = Ids(pid: nat, ppid: nat)

  function Pids(ps: seq<Ids>): (r: seq<nat>)
    ensures |r| == |ps|
    ensures forall i :: 0 <= i < |ps| ==> r[i] == ps[i].pid
  {
    if ps == [] then [] else [ps[0].pid] + Pids(ps[1..])
  }

  /** The key set of the `HashMap` collected from the pids. */
  function UniquePids(pids: seq<nat>): (r: set<nat>)
    ensures forall p :: p in r <==> p in pids
  {
    if pids == [] then {} else {pids[0]} + UniquePids(pids[1..])
  }

  /** The fold of the source: 0 for a process whose ppid is a recorded pid, 1 otherwise. */
  function ParentlessCount(ps: seq<Ids>, pids: seq<nat>): nat {
    if ps == [] then 0
    else (if ps[0].ppid in pids then 0 else 1) + ParentlessCount(ps[1..], pids)
  }

  datatype IntegrityError = DuplicatePid | MissingProcess

  datatype Verdict = Pass | Fail(error: IntegrityError)

  /**
   * What the check accepts: distinct pids and at most one process whose
   * parent is not recorded. A repeated pid is reported as such whatever the
   * parent structure; the parentless count is reported only for distinct pids.
   */
  function VerifyIntegrity(ps: seq<Ids>): (v: Verdict)
    ensures v == Pass <==> DistinctPids(ps) && AtMostOneRoot(ps)
    ensures v == Fail(DuplicatePid) <==> !DistinctPids(ps)
    ensures v == Fail(MissingProcess) <==> DistinctPids(ps) && !AtMostOneRoot(ps)
  {
    IntegrityMeaning(ps);
    var pids := Pids(ps);
    if |pids| != |UniquePids(pids)| then Fail(DuplicatePid)
    else if ParentlessCount(ps, pids) > 1 then Fail(MissingProcess)
    else Pass
  }

  /** No two recorded processes share a pid. */
  predicate DistinctPids(ps: seq<Ids>) {
    forall i, j :: 0 <= i < j < |ps| ==> ps[i].pid != ps[j].pid
  }

  /** Some recorded process has the pid that process `i` names as its parent (possibly itself). */
  predicate ParentRecorded(ps: seq<Ids>, i: int)
    requires 0 <= i < |ps|
  {
    exists j :: 0 <= j < |ps| && ps[j].pid == ps[i].ppid
  }

  /** At most one recorded process lacks a recorded parent. */
  predicate AtMostOneRoot(ps: seq<Ids>) {
    forall i, j :: 0 <= i < |ps| && 0 <= j < |ps| && !ParentRecorded(ps, i) && !ParentRecorded(ps, j) ==> i == j
  }

  predicate Distinct(s: seq<nat>) {
    forall i, j :: 0 <= i < j < |s| ==> s[i] != s[j]
  }

  lemma UniquePidsCons(s: seq<nat>)
    requires s != []
    ensures |UniquePids(s)| == |UniquePids(s[1..])| + (if s[0] in s[1..] then 0 else 1)
  {
    if s[0] in s[1..] {
      assert UniquePids(s) == UniquePids(s[1..]);
    }
  }

  lemma DistinctCons(s: seq<nat>)
    requires s != []
    ensures Distinct(s) <==> s[0] !in s[1..] && Distinct(s[1..])
  {
    var t := s[1..];
    assert forall i :: 0 < i < |s| ==> s[i] == t[i - 1];
    if s[0] in t {
      var k :| 0 <= k < |t| && t[k] == s[0];
      assert s[0] == s[k + 1];
    }
    if !Distinct(t) {
      var i, j :| 0 <= i < j < |t| && t[i] == t[j];
      assert s[i + 1] == s[j + 1];
    }
  }

  /** The map of pids loses an entry exactly when a pid repeats. */
  lemma {:induction false} UniquePidsSize(s: seq<nat>)
    ensures |UniquePids(s)| <= |s|
    ensures |UniquePids(s)| == |s| <==> Distinct(s)
    decreases |s|
  {
    if s != [] {
      UniquePidsSize(s[1..]);
      UniquePidsCons(s);
      DistinctCons(s);
    }
  }

  lemma {:induction false} ParentlessCountZero(qs: seq<Ids>, pids: seq<nat>)
    ensures ParentlessCount(qs, pids) == 0 <==> forall i :: 0 <= i < |qs| ==> qs[i].ppid in pids
    decreases |qs|
  {
    if qs != [] {
      ParentlessCountZero(qs[1..], pids);
      if forall i :: 0 <= i < |qs[1..]| ==> qs[1..][i].ppid in pids {
        forall i | 0 <= i < |qs| && i > 0 ensures qs[i].ppid in pids {
          assert qs[i] == qs[1..][i - 1];
        }
      }
    }
  }

  /** The fold stays at most 1 exactly when at most one process is parentless. */
  lemma {:induction false} ParentlessCountAtMostOne(qs: seq<Ids>, pids: seq<nat>)
    ensures ParentlessCount(qs, pids) <= 1 <==>
      forall i, j :: 0 <= i < |qs| && 0 <= j < |qs| && qs[i].ppid !in pids && qs[j].ppid !in pids ==> i == j
    decreases |qs|
  {
    if qs != [] {
      var t := qs[1..];
      ParentlessCountAtMostOne(t, pids);
      ParentlessCountZero(t, pids);
      assert forall i :: 0 < i < |qs| ==> qs[i] == t[i - 1];
      if ParentlessCount(qs, pids) <= 1 {
        forall i, j | 0 <= i < |qs| && 0 <= j < |qs| && qs[i].ppid !in pids && qs[j].ppid !in pids
          ensures i == j
        {
          if i > 0 && j > 0 {
            assert t[i - 1].ppid !in pids && t[j - 1].ppid !in pids;
          }
        }
      } else {
        if qs[0].ppid in pids {
          var i, j :| 0 <= i < |t| && 0 <= j < |t| && t[i].ppid !in pids && t[j].ppid !in pids && i != j;
          assert qs[i + 1] == t[i] && qs[j + 1] == t[j];
        } else {
          var i :| 0 <= i < |t| && t[i].ppid !in pids;
          assert qs[i + 1] == t[i];
        }
      }
    }
  }

  lemma ParentRecordedInPids(ps: seq<Ids>, i: int)
    requires 0 <= i < |ps|
    ensures ParentRecorded(ps, i) <==> ps[i].ppid in Pids(ps)
  {
    var pids := Pids(ps);
    if ps[i].ppid in pids {
      var j :| 0 <= j < |pids| && pids[j] == ps[i].ppid;
      assert ps[j].pid == ps[i].ppid;
    }
  }

  /** The two tests of the code mean distinct pids and at most one root. */
  lemma IntegrityMeaning(ps: seq<Ids>)
    ensures |Pids(ps)| == |UniquePids(Pids(ps))| <==> DistinctPids(ps)
    ensures ParentlessCount(ps, Pids(ps)) <= 1 <==> AtMostOneRoot(ps)
  {
    var pids := Pids(ps);
    UniquePidsSize(pids);
    assert Distinct(pids) <==> DistinctPids(ps);
    ParentlessCountAtMostOne(ps, pids);
    forall i | 0 <= i < |ps| ensures ParentRecorded(ps, i) <==> ps[i].ppid in pids {
      ParentRecordedInPids(ps, i);
    }
  }

  lemma SingleProcessPasses(pid: nat, ppid: nat)
    ensures VerifyIntegrity([Ids(pid, ppid)]) == Pass
  {
  }

  lemma FourPidsDistinct(a: nat, b: nat, c: nat, d: nat)
    requires a != b && a != c && a != d && b != c && b != d && c != d
    ensures |UniquePids([a, b, c, d])| == 4
  {
    assert UniquePids([a, b, c, d]) == {a, b, c, d} by {
      assert [a, b, c, d][1..] == [b, c, d];
      assert [b, c, d][1..] == [c, d];
      assert [c, d][1..] == [d];
    }
  }

  lemma ParentlessCountFour(ps: seq<Ids>, pids: seq<nat>)
    requires |ps| == 4
    ensures ParentlessCount(ps, pids) ==
      (if ps[0].ppid in pids then 0 else 1) + (if ps[1].ppid in pids then 0 else 1) +
      (if ps[2].ppid in pids then 0 else 1) + (if ps[3].ppid in pids then 0 else 1)
  {
    assert ps[1..][1..] == ps[2..] && ps[2..][1..] == ps[3..] && ps[3..][1..] == [];
    assert ParentlessCount(ps[3..], pids) == (if ps[3].ppid in pids then 0 else 1);
    assert ParentlessCount(ps[2..], pids) == (if ps[2].ppid in pids then 0 else 1) + ParentlessCount(ps[3..], pids);
    assert ParentlessCount(ps[1..], pids) == (if ps[1].ppid in pids then 0 else 1) + ParentlessCount(ps[2..], pids);
  }

  lemma ThreePidsDistinct(a: nat, b: nat, c: nat)
    requires a != b && a != c && b != c
    ensures |UniquePids([a, b, c])| == 3
  {
    assert UniquePids([a, b, c]) == {a, b, c} by {
      assert [a, b, c][1..] == [b, c];
      assert [b, c][1..] == [c];
    }
  }

  lemma ParentlessCountThree(ps: seq<Ids>, pids: seq<nat>)
    requires |ps| == 3
    ensures ParentlessCount(ps, pids) ==
      (if ps[0].ppid in pids then 0 else 1) + (if ps[1].ppid in pids then 0 else 1) +
      (if ps[2].ppid in pids then 0 else 1)
  {
    assert ps[1..][1..] == ps[2..] && ps[2..][1..] == [];
    assert ParentlessCount(ps[2..], pids) == (if ps[2].ppid in pids then 0 else 1);
    assert ParentlessCount(ps[1..], pids) == (if ps[1].ppid in pids then 0 else 1) + ParentlessCount(ps[2..], pids);
  }

  /** With the pids known to be distinct, the verdict is decided by the parentless count alone. */
  lemma VerdictOfCount(ps: seq<Ids>, pids: seq<nat>)
    requires Pids(ps) == pids && |UniquePids(pids)| == |pids|
    ensures VerifyIntegrity(ps) == if ParentlessCount(ps, pids) > 1 then Fail(MissingProcess) else Pass
  {
  }

  /** One for a process whose parent is not among `pids`. */
  function Root(p: Ids, pids: seq<nat>): nat {
    if p.ppid in pids then 0 else 1
  }

  /** The verdict on four processes with distinct pids, from their parentless count. */
  lemma FourVerdict(p: Ids, q: Ids, u: Ids, v: Ids)
    requires p.pid != q.pid && p.pid != u.pid && p.pid != v.pid
    requires q.pid != u.pid && q.pid != v.pid && u.pid != v.pid
    ensures var pids := [p.pid, q.pid, u.pid, v.pid];
      VerifyIntegrity([p, q, u, v]) ==
        if Root(p, pids) + Root(q, pids) + Root(u, pids) + Root(v, pids) > 1 then Fail(MissingProcess) else Pass
  {
    var ps := [p, q, u, v];
    var pids := [p.pid, q.pid, u.pid, v.pid];
    assert Pids(ps) == pids;
    FourPidsDistinct(p.pid, q.pid, u.pid, v.pid);
    ParentlessCountFour(ps, pids);
    VerdictOfCount(ps, pids);
  }

  /** The verdict on three processes with distinct pids, from their parentless count. */
  lemma ThreeVerdict(p: Ids, q: Ids, u: Ids)
    requires p.pid != q.pid && p.pid != u.pid && q.pid != u.pid
    ensures var pids := [p.pid, q.pid, u.pid];
      VerifyIntegrity([p, q, u]) ==
        if Root(p, pids) + Root(q, pids) + Root(u, pids) > 1 then Fail(MissingProcess) else Pass
  {
    var ps := [p, q, u];
    var pids := [p.pid, q.pid, u.pid];
    assert Pids(ps) == pids;
    ThreePidsDistinct(p.pid, q.pid, u.pid);
    ParentlessCountThree(ps, pids);
    VerdictOfCount(ps, pids);
  }

  /**
   * A tree of four processes, root `a` with children `b` and `c` and
   * grandchild `d` (the test uses 1, 2, 3, 4 and root parent 0), has one
   * root and distinct pids.
   */
  lemma TreePasses(a: nat, b: nat, c: nat, d: nat, r: nat)
    requires a != b && a != c && a != d && b != c && b != d && c != d
    requires r != a && r != b && r != c && r != d
    ensures VerifyIntegrity([Ids(a, r), Ids(b, a), Ids(c, a), Ids(d, b)]) == Pass
  {
    FourVerdict(Ids(a, r), Ids(b, a), Ids(c, a), Ids(d, b));
    var pids := [a, b, c, d];
    assert r !in pids && a in pids && b in pids;
  }

  /**
   * Next to the root 1 and its children 2 and 3, a process whose parent is
   * none of the recorded pids (as 5 with parent 4) makes a second parentless
   * process.
   */
  lemma MissingParentFails(pid: nat, ppid: nat)
    requires pid != 0 && pid != 1 && pid != 2 && pid != 3
    requires ppid != 1 && ppid != 2 && ppid != 3 && ppid != pid
    ensures VerifyIntegrity([Ids(1, 0), Ids(2, 1), Ids(3, 1), Ids(pid, ppid)]) == Fail(MissingProcess)
  {
    FourVerdict(Ids(1, 0), Ids(2, 1), Ids(3, 1), Ids(pid, ppid));
    var pids := [1, 2, 3, pid];
    assert 0 !in pids && ppid !in pids && 1 in pids;
  }

  lemma DuplicateFails()
    ensures VerifyIntegrity([Ids(1, 0), Ids(2, 1), Ids(3, 1), Ids(1, 3)]) == Fail(DuplicatePid)
  {
    var ps := [Ids(1, 0), Ids(2, 1), Ids(3, 1), Ids(1, 3)];
    assert ps[0].pid == ps[3].pid;
  }

  /** A repeated pid is reported even when several processes are also parentless. */
  lemma DuplicateReportedFirst()
    ensures VerifyIntegrity([Ids(1, 7), Ids(1, 8), Ids(2, 9)]) == Fail(DuplicatePid)
  {
    var ps := [Ids(1, 7), Ids(1, 8), Ids(2, 9)];
    assert ps[0].pid == ps[1].pid;
  }

  /** Process records whose pid and ppid are linked by neither direction. */
  predicate Unlinked(a: Ids, b: Ids) {
    a.ppid != b.pid && b.ppid != a.pid
  }

  /**
   * A pair of processes naming each other as parent (2 and 3 in the
   * example), next to a root they are not linked to (1 with parent 0),
   * passes the check: the recording is accepted though it forms two
   * components.
   */
  lemma DetachedCyclePasses(a: nat, b: nat, c: nat, r: nat)
    requires a != b && a != c && b != c
    requires r != a && r != b && r != c
    ensures VerifyIntegrity([Ids(a, r), Ids(b, c), Ids(c, b)]) == Pass
    ensures Unlinked(Ids(a, r), Ids(b, c)) && Unlinked(Ids(a, r), Ids(c, b))
  {
    ThreeVerdict(Ids(a, r), Ids(b, c), Ids(c, b));
    var pids := [a, b, c];
    assert r !in pids && b in pids && c in pids;
  }

  /** A process that is its own parent counts as having a recorded parent. */
  lemma SelfParentPasses()
    ensures VerifyIntegrity([Ids(1, 1), Ids(2, 0)]) == Pass
  {
    var ps := [Ids(1, 1), Ids(2, 0)];
    assert ParentRecorded(ps, 0) by { assert ps[0].pid == 1; }
  }
}
