/** The manager's write cache written out: which writes a response issues after the last one, and in which order. */
module WriteCache {
  import opened Collections
  import opened Topology
  import opened Allocations
  import opened CpusetText
  import opened Cgroups

  lemma {:induction false} LastForItself(allocs: seq<Allocation>, a: Allocation)
    requires DistinctAllocations(allocs) && a in allocs
    ensures LastFor(allocs, a.id) == Some(a)
    decreases |allocs|
  {
    var n := |allocs| - 1;
    assert allocs == allocs[..n] + [allocs[n]];
    if a != allocs[n] {
      assert a in allocs[..n];
      LastForItself(allocs[..n], a);
    }
  }

  lemma {:induction false} LastForMember(last: seq<Allocation>, id: Id)
    ensures LastFor(last, id).Some? ==> LastFor(last, id).value in last && LastFor(last, id).value.id == id
    decreases |last|
  {
    if last != [] {
      LastForMember(last[..|last| - 1], id);
    }
  }

  /** The last response holds the same settings for this container and lists the same threads, in any order. */
  ghost predicate Repeated(last: seq<Allocation>, a: Allocation) {
    exists b :: b in last && b.id == a.id && b.quota == a.quota && b.shares == a.shares && b.flags == a.flags
             && forall t :: t in b.threadIds <==> t in a.threadIds
  }

  /** Such allocations are the ones that are skipped. */
  lemma SkippedIff(last: seq<Allocation>, a: Allocation)
    requires DistinctAllocations(last)
    ensures Unchanged(last, a) <==> Repeated(last, a)
  {
    if Unchanged(last, a) {
      LastForMember(last, a.id);
      var b := LastFor(last, a.id).value;
      forall t ensures t in b.threadIds <==> t in a.threadIds {
        assert t in ToSet(b.threadIds) <==> t in ToSet(a.threadIds);
      }
    }
    if Repeated(last, a) {
      var b :| b in last && b.id == a.id && b.quota == a.quota && b.shares == a.shares && b.flags == a.flags
            && forall t :: t in b.threadIds <==> t in a.threadIds;
      LastForItself(last, b);
      assert ToSet(a.threadIds) == ToSet(b.threadIds);
    }
  }

  /** For every allocation that is not repeated, in order: the cpuset, then the quota, then the shares. */
  ghost function Issued(last: seq<Allocation>, allocs: seq<Allocation>): seq<Job> {
    if allocs == [] then [] else
      var a := allocs[|allocs| - 1];
      Issued(last, allocs[..|allocs| - 1]) +
      if Repeated(last, a) then []
      else [Job(a.id, Cpuset, PrintList(a.threadIds)), Job(a.id, Quota, PrintNat(a.quota)),
            Job(a.id, Shares, PrintNat(a.shares))]
  }

  lemma UpdateIssues(cg: Cgroups, a: Allocation, reachable: set<(Id, File)>)
    ensures var cg' := Update(cg, a, reachable);
            && cg'.jobs == cg.jobs + [Job(a.id, Cpuset, PrintList(a.threadIds)), Job(a.id, Quota, PrintNat(a.quota)),
                                      Job(a.id, Shares, PrintNat(a.shares))]
            && cg'.writes + cg'.fails == cg.writes + cg.fails + 3
  {
    hide PrintList, PrintNat;
  }

  /**
    The writes under way after a response are those from before and the issued ones, in order; the three memory
    settings of each written allocation have been tried on the spot.
   */
  lemma {:induction false} IssuesExactly(cg: Cgroups, last: seq<Allocation>, allocs: seq<Allocation>,
                                         reachable: set<(Id, File)>)
    requires DistinctAllocations(last)
    ensures var cg' := Apply(cg, last, allocs, reachable);
            && cg'.jobs == cg.jobs + Issued(last, allocs)
            && cg'.writes + cg'.fails == cg.writes + cg.fails + |Issued(last, allocs)|
    decreases |allocs|
  {
    hide Unchanged, Repeated, PrintList, PrintNat, Update;
    if allocs != [] {
      var n := |allocs| - 1;
      IssuesExactly(cg, last, allocs[..n], reachable);
      SkippedIff(last, allocs[n]);
      UpdateIssues(Apply(cg, last, allocs[..n], reachable), allocs[n], reachable);
    }
  }

  lemma {:induction false} NothingToApply(cg: Cgroups, last: seq<Allocation>, allocs: seq<Allocation>,
                                          reachable: set<(Id, File)>)
    requires forall a :: a in allocs ==> Unchanged(last, a)
    ensures Apply(cg, last, allocs, reachable) == cg
    decreases |allocs|
  {
    if allocs != [] {
      var n := |allocs| - 1;
      assert allocs[n] in allocs && forall a :: a in allocs[..n] ==> a in allocs;
      NothingToApply(cg, last, allocs[..n], reachable);
    }
  }

  lemma {:induction false} SomethingIssued(last: seq<Allocation>, allocs: seq<Allocation>, a: Allocation)
    requires a in allocs && !Repeated(last, a)
    ensures Issued(last, allocs) != []
    decreases |allocs|
  {
    hide Repeated, PrintList, PrintNat;
    var n := |allocs| - 1;
    assert allocs == allocs[..n] + [allocs[n]];
    if a != allocs[n] {
      SomethingIssued(last, allocs[..n], a);
    }
  }

  /** A response leaves the cgroups alone exactly when it repeats the last one, in whatever order it lists threads. */
  lemma NoWriteIff(cg: Cgroups, last: seq<Allocation>, allocs: seq<Allocation>, reachable: set<(Id, File)>)
    requires DistinctAllocations(last)
    ensures Apply(cg, last, allocs, reachable) == cg <==> forall a :: a in allocs ==> Repeated(last, a)
  {
    hide Apply, Repeated, Issued, Unchanged;
    forall a | a in allocs ensures Unchanged(last, a) <==> Repeated(last, a) {
      SkippedIff(last, a);
    }
    if forall a :: a in allocs ==> Repeated(last, a) {
      NothingToApply(cg, last, allocs, reachable);
    } else {
      var a :| a in allocs && !Repeated(last, a);
      SomethingIssued(last, allocs, a);
      IssuesExactly(cg, last, allocs, reachable);
    }
  }
}
