/** The thread counts the manager reports, and why they add up. */
module Metrics {
  import opened Collections
  import opened Topology
  import opened Views
  import opened Processor

  function AllocatedSize(shape: Shape, pl: Placement): nat { |Keep(Threads(shape), ClaimedSet(pl))| }

  function UnallocatedSize(shape: Shape, pl: Placement): nat { |Keep(Threads(shape), EmptySet(pl))| }

  /** One claim too many for every workload beyond the first on a thread. */
  function Oversubscribed(ts: seq<nat>, pl: Placement): nat {
    if ts == [] then 0 else
      var n := |ts| - 1;
      Oversubscribed(ts[..n], pl) + (if ts[n] in pl && |pl[ts[n]]| > 1 then |pl[ts[n]]| - 1 else 0)
  }

  method OversubscribedThreadCount(cpu: Cpu) returns (count: nat)
    requires cpu.Valid()
    ensures count == Oversubscribed(Threads(cpu.shape), cpu.State())
  {
    hide WellFormed, Threads;
    cpu.ValidKeys();
    count := 0;
    var ts := Threads(cpu.shape);
    for i := 0 to |ts|
      invariant count == Oversubscribed(ts[..i], cpu.State())
    {
      PrefixSet(ts, i);
      assert ts[..i + 1][..i] == ts[..i];
      var here := |cpu.threads[ts[i]].workloadIds|;
      if here > 1 {
        count := count + here - 1;
      }
    }
    WholePrefix(ts);
  }

  /** All claims on `ts` by workloads of `ids`, thread by thread. */
  ghost function Claims(ts: seq<nat>, pl: Placement, ids: set<Id>): nat {
    if ts == [] then 0 else
      var n := |ts| - 1;
      Claims(ts[..n], pl, ids) + (if ts[n] in pl then |pl[ts[n]] * ids| else 0)
  }

  /** The same claims, workload by workload. */
  ghost function ThreadCounts(shape: Shape, pl: Placement, ids: seq<Id>): nat {
    if ids == [] then 0 else
      var n := |ids| - 1;
      ThreadCounts(shape, pl, ids[..n]) + |ThreadsOf(shape, pl, ids[n])|
  }

  lemma {:induction false} ClaimsOfOneMore(ts: seq<nat>, pl: Placement, ids: set<Id>, w: Id)
    requires w !in ids
    ensures Claims(ts, pl, ids + {w}) == Claims(ts, pl, ids) + |Keep(ts, HeldBy(pl, w))|
    decreases |ts|
  {
    if ts != [] {
      var n := |ts| - 1;
      ClaimsOfOneMore(ts[..n], pl, ids, w);
      KeepStep(ts, n, HeldBy(pl, w));
      WholePrefix(ts);
      if ts[n] in pl {
        var here := pl[ts[n]];
        assert here * (ids + {w}) == here * ids + (if w in here then {w} else {});
      }
    }
  }

  lemma {:induction false} NoClaims(ts: seq<nat>, pl: Placement)
    ensures Claims(ts, pl, {}) == 0
    decreases |ts|
  {
    if ts != [] {
      var n := |ts| - 1;
      NoClaims(ts[..n], pl);
      if ts[n] in pl { assert pl[ts[n]] * {} == {}; }
    }
  }

  lemma {:induction false} CountedTwice(shape: Shape, pl: Placement, ids: seq<Id>)
    requires NoDup(ids)
    ensures ThreadCounts(shape, pl, ids) == Claims(Threads(shape), pl, ToSet(ids))
    decreases |ids|
  {
    if ids == [] {
      NoClaims(Threads(shape), pl);
      assert ToSet(ids) == {};
    } else {
      var n := |ids| - 1;
      CountedTwice(shape, pl, ids[..n]);
      assert ToSet(ids) == ToSet(ids[..n]) + {ids[n]};
      ClaimsOfOneMore(Threads(shape), pl, ToSet(ids[..n]), ids[n]);
    }
  }

  lemma {:induction false} AllocatedPlusOversubscribed(ts: seq<nat>, pl: Placement, ids: set<Id>)
    requires forall t :: t in pl ==> pl[t] <= ids
    ensures |Keep(ts, ClaimedSet(pl))| + Oversubscribed(ts, pl) == Claims(ts, pl, ids)
    decreases |ts|
  {
    if ts != [] {
      var n := |ts| - 1;
      AllocatedPlusOversubscribed(ts[..n], pl, ids);
      KeepStep(ts, n, ClaimedSet(pl));
      WholePrefix(ts);
      if ts[n] in pl {
        assert pl[ts[n]] * ids == pl[ts[n]];
        assert pl[ts[n]] == {} <==> |pl[ts[n]]| == 0;
      }
    }
  }

  /**
    Double counting: for every state of the CPU, allocated and oversubscribed together are the thread counts of
    the workloads on it, and allocated and unallocated together are all the threads.
   */
  lemma DoubleCounting(shape: Shape, pl: Placement, ids: seq<Id>)
    requires WellFormed(shape) && Covers(shape, pl) && NoDup(ids) && ToSet(ids) == WorkloadsOn(pl)
    ensures AllocatedSize(shape, pl) + Oversubscribed(Threads(shape), pl) == ThreadCounts(shape, pl, ids)
    ensures AllocatedSize(shape, pl) + UnallocatedSize(shape, pl) == |Threads(shape)|
  {
    AllocatedPlusOversubscribed(Threads(shape), pl, WorkloadsOn(pl));
    CountedTwice(shape, pl, ids);
    Partition(Threads(shape), pl);
  }

  lemma Partition(ts: seq<nat>, pl: Placement)
    requires NoDup(ts) && pl.Keys == ToSet(ts)
    ensures |Keep(ts, ClaimedSet(pl))| + |Keep(ts, EmptySet(pl))| == |ts|
  {
    KeepFacts(ts, ClaimedSet(pl));
    KeepFacts(ts, EmptySet(pl));
    NoDupCard(ts);
    assert ToSet(ts) * ClaimedSet(pl) == pl.Keys - EmptySet(pl) && ToSet(ts) * EmptySet(pl) == EmptySet(pl);
    SubsetCard(EmptySet(pl), pl.Keys);
  }
}
