/** What an allocator answers for each workload: thread ids, shares, quota and memory flags. */
module Allocations {
  import opened Collections
  import opened Topology
  import opened GreedyPlacement

  const SHARES_SCALE := 100
  const QUOTA_SCALE := 100000

  /** The cpuset.memory_* settings, read from the configuration. */
  datatype Flags = Flags(migrate: bool, spreadPage: bool, spreadSlab: bool)

  datatype Allocation = Allocation(id: Id, threadIds: seq<nat>, shares: nat, quota: nat, flags: Flags)

  /** `__eq__`: the thread ids are compared as sets. */
  predicate Same(a: Allocation, b: Allocation) {
    && a.id == b.id && a.quota == b.quota && a.shares == b.shares
    && ToSet(a.threadIds) == ToSet(b.threadIds) && a.flags == b.flags
  }

  function AllocationFor(shape: Shape, pl: Placement, w: Workload, flags: Flags): Allocation {
    Allocation(w.id, ThreadsOf(shape, pl, w.id), w.count * SHARES_SCALE, w.count * QUOTA_SCALE, flags)
  }

  /** `get_workload_allocations`: a workload that holds no thread has no allocation. */
  function AllocationsOf(shape: Shape, pl: Placement, ws: seq<Workload>, flags: Flags): seq<Allocation> {
    if ws == [] then [] else
      var n := |ws| - 1;
      var before := AllocationsOf(shape, pl, ws[..n], flags);
      var a := AllocationFor(shape, pl, ws[n], flags);
      if a.threadIds == [] then before else before + [a]
  }

  lemma ThreadsOfFacts(shape: Shape, pl: Placement, w: Id)
    requires Covers(shape, pl)
    ensures ToSet(ThreadsOf(shape, pl, w)) == HeldBy(pl, w)
    ensures ThreadsOf(shape, pl, w) == [] <==> HeldBy(pl, w) == {}
  {
    KeepFacts(Threads(shape), HeldBy(pl, w));
    assert ToSet(Threads(shape)) * HeldBy(pl, w) == HeldBy(pl, w);
    var ids := ThreadsOf(shape, pl, w);
    if ids != [] { assert ids[0] in ToSet(ids); }
  }

  /** Exactly the requested workloads that hold a thread are answered for. */
  lemma {:induction false} AllocatedIffHolding(shape: Shape, pl: Placement, ws: seq<Workload>, flags: Flags,
                                               a: Allocation)
    requires Covers(shape, pl)
    ensures a in AllocationsOf(shape, pl, ws, flags) <==>
            exists w :: w in ws && HeldBy(pl, w.id) != {} && a == AllocationFor(shape, pl, w, flags)
    decreases |ws|
  {
    if ws != [] {
      var n := |ws| - 1;
      AllocatedIffHolding(shape, pl, ws[..n], flags, a);
      ThreadsOfFacts(shape, pl, ws[n].id);
      assert ws == ws[..n] + [ws[n]];
    }
  }

  /** The threads of a workload come in natural order. */
  lemma ThreadsInOrder(shape: Shape, pl: Placement, w: Id, n: nat, i: nat, j: nat)
    requires WellFormed(shape) && i < j < |Threads(shape)| && n <= |ThreadsOf(shape, pl, w)|
    requires Threads(shape)[i] in HeldBy(pl, w) && Threads(shape)[j] in ThreadsOf(shape, pl, w)[..n]
    ensures Threads(shape)[i] in ThreadsOf(shape, pl, w)[..n]
  {
    KeepInOrder(Threads(shape), HeldBy(pl, w), n, i, j);
  }

  ghost predicate DistinctAllocations(allocs: seq<Allocation>) {
    forall i, j :: 0 <= i < j < |allocs| ==> allocs[i].id != allocs[j].id
  }

  lemma {:induction false} AllocationIds(shape: Shape, pl: Placement, ws: seq<Workload>, flags: Flags)
    requires DistinctIds(ws)
    ensures DistinctAllocations(AllocationsOf(shape, pl, ws, flags))
    ensures forall a :: a in AllocationsOf(shape, pl, ws, flags) ==> a.id in Ids(ws)
    decreases |ws|
  {
    if ws != [] {
      IdsPrefix(ws);
      AllocationIds(shape, pl, ws[..|ws| - 1], flags);
    }
  }

  /** The answers come in the order of the request. */
  lemma {:induction false} AllocationsInOrder(shape: Shape, pl: Placement, ws: seq<Workload>, flags: Flags,
                                              n: nat, i: nat, j: nat)
    requires Covers(shape, pl) && DistinctIds(ws) && i < j < |ws|
    requires HeldBy(pl, ws[i].id) != {} && n <= |AllocationsOf(shape, pl, ws, flags)|
    requires AllocationFor(shape, pl, ws[j], flags) in AllocationsOf(shape, pl, ws, flags)[..n]
    ensures AllocationFor(shape, pl, ws[i], flags) in AllocationsOf(shape, pl, ws, flags)[..n]
    decreases |ws|
  {
    hide HeldBy, Covers, AllocationsOf, AllocationFor, DistinctIds, Ids;
    var m := |ws| - 1;
    var before := AllocationsOf(shape, pl, ws[..m], flags);
    var last := AllocationFor(shape, pl, ws[m], flags);
    IdsPrefix(ws);
    OneMoreAllocated(shape, pl, ws, flags);
    assert ws[i] == ws[..m][i] && (j < m ==> ws[j] == ws[..m][j]);
    if n <= |before| {
      assert AllocationsOf(shape, pl, ws, flags)[..n] == before[..n];
      assert j == m ==> last in before;
      AllocationsInOrder(shape, pl, ws[..m], flags, n, i, j);
    } else {
      AllocatedIffHolding(shape, pl, ws[..m], flags, AllocationFor(shape, pl, ws[i], flags));
      assert ws[i] in ws[..m];
      var allocs := AllocationsOf(shape, pl, ws, flags);
      assert allocs[..n] == allocs;
    }
  }

  lemma OneMoreAllocated(shape: Shape, pl: Placement, ws: seq<Workload>, flags: Flags)
    requires DistinctIds(ws) && ws != []
    ensures var before := AllocationsOf(shape, pl, ws[..|ws| - 1], flags);
            var last := AllocationFor(shape, pl, ws[|ws| - 1], flags);
            && last !in before
            && (AllocationsOf(shape, pl, ws, flags) == before
                || AllocationsOf(shape, pl, ws, flags) == before + [last])
  {
    hide ThreadsOf;
    IdsPrefix(ws);
    AllocationIds(shape, pl, ws[..|ws| - 1], flags);
  }

  /** Equal allocations of two placements list the same threads, in the same order. */
  lemma SameMeansSameList(shape: Shape, pl: Placement, w: Workload, pl': Placement, w': Workload, flags: Flags)
    requires Covers(shape, pl) && Covers(shape, pl')
    requires Same(AllocationFor(shape, pl, w, flags), AllocationFor(shape, pl', w', flags))
    ensures AllocationFor(shape, pl, w, flags) == AllocationFor(shape, pl', w', flags)
  {
    ThreadsOfFacts(shape, pl, w.id);
    ThreadsOfFacts(shape, pl', w'.id);
  }

  /**
    Equal allocations hold the same threads equally often, in whatever order each lists them, as long as neither
    lists a thread twice.
   */
  lemma SameMeansSameThreads(a: Allocation, b: Allocation)
    requires Same(a, b) && NoDup(a.threadIds) && NoDup(b.threadIds)
    ensures multiset(a.threadIds) == multiset(b.threadIds)
  {
    SameMultiset(a.threadIds, b.threadIds);
  }
}
