/** Which workloads count as isolated: after one call, over whole runs, and where that fails the promise. */
module ManagerRuns {
  import opened Collections
  import opened Topology
  import opened GreedyPlacement
  import opened Allocations
  import opened Allocators
  import opened WorkloadMap
  import opened Cgroups
  import opened WriteCache
  import opened Manager
  import opened Coherence
  import opened Quiescence
  import opened Fallback
  import opened Rebalancing

  ghost function JobIds(cg: Cgroups): set<Id> { set job | job in cg.jobs :: job.id }

  lemma {:induction false} FinishAllIsolates(cg: Cgroups)
    ensures FinishAll(cg).isolated == cg.isolated + JobIds(cg)
    ensures FinishAll(cg).jobs == []
    decreases |cg.jobs|
  {
    if cg.jobs == [] {
      assert JobIds(cg) == {};
    } else {
      var cg' := Finish(cg, 0, true);
      FinishAllIsolates(cg');
      assert cg.jobs == [cg.jobs[0]] + cg'.jobs;
      assert JobIds(cg) == JobIds(cg') + {cg.jobs[0].id};
    }
  }

  /** The ids whose allocation differs from the last response. */
  ghost function Changed(last: seq<Allocation>, allocs: seq<Allocation>): set<Id> {
    set a | a in allocs && !Unchanged(last, a) :: a.id
  }

  /** The containers with a file that is written on the spot and can be. */
  ghost function OnTheSpot(reachable: set<(Id, File)>): set<Id> {
    set x | x in reachable && !Async(x.1) :: x.0
  }

  lemma UpdateIsolates(cg: Cgroups, a: Allocation, reachable: set<(Id, File)>)
    ensures Update(cg, a, reachable).isolated == cg.isolated + {a.id} * OnTheSpot(reachable)
    ensures JobIds(Update(cg, a, reachable)) == JobIds(cg) + {a.id}
  {
    var cg' := Update(cg, a, reachable);
    UpdateStarts(cg, a, reachable);
    StartedIds(cg, a);
    WrittenOnTheSpot(cg, a, reachable);
  }

  lemma StartedIds(cg: Cgroups, a: Allocation)
    ensures (set job | job in cg.jobs + Started(a) :: job.id) == JobIds(cg) + {a.id}
  {
    assert Started(a)[0] in cg.jobs + Started(a);
    forall v | v in JobIds(cg) ensures exists job :: job in cg.jobs + Started(a) && job.id == v {
      var job :| job in cg.jobs && job.id == v;
      assert job in cg.jobs + Started(a);
    }
  }

  lemma WrittenOnTheSpot(cg: Cgroups, a: Allocation, reachable: set<(Id, File)>)
    ensures Update(cg, a, reachable).isolated == cg.isolated + {a.id} * OnTheSpot(reachable)
  {
    var some := (a.id, MemoryMigrate) in reachable || (a.id, MemorySpreadPage) in reachable
                || (a.id, MemorySpreadSlab) in reachable;
    assert Update(cg, a, reachable).isolated == cg.isolated + (if some then {a.id} else {});
    assert a.id in OnTheSpot(reachable) <==> some by { SpotFiles(a.id, reachable); }
  }

  lemma SpotFiles(id: Id, reachable: set<(Id, File)>)
    ensures id in OnTheSpot(reachable) <==>
            || (id, MemoryMigrate) in reachable || (id, MemorySpreadPage) in reachable
            || (id, MemorySpreadSlab) in reachable
  {
    forall file | !Async(file) && (id, file) in reachable ensures id in OnTheSpot(reachable) {
      assert (id, file).0 == id && (id, file).1 == file;
    }
  }

  lemma {:induction false} ApplyIsolates(cg: Cgroups, last: seq<Allocation>, allocs: seq<Allocation>,
                                         reachable: set<(Id, File)>)
    ensures Apply(cg, last, allocs, reachable).isolated == cg.isolated + Changed(last, allocs) * OnTheSpot(reachable)
    ensures JobIds(Apply(cg, last, allocs, reachable)) == JobIds(cg) + Changed(last, allocs)
    decreases |allocs|
  {
    hide Unchanged, Update, JobIds, OnTheSpot;
    if allocs == [] {
      assert Changed(last, allocs) == {};
    } else {
      var n := |allocs| - 1;
      assert allocs == allocs[..n] + [allocs[n]];
      ApplyIsolates(cg, last, allocs[..n], reachable);
      UpdateIsolates(Apply(cg, last, allocs[..n], reachable), allocs[n], reachable);
      assert Changed(last, allocs)
          == Changed(last, allocs[..n]) + (if Unchanged(last, allocs[n]) then {} else {allocs[n].id});
    }
  }

  // ---- runs with synchronous writes ----

  /** Every file of every container that the response answers for. */
  function AllFiles(out: Attempt): set<(Id, File)> {
    if out.Failed? then {} else
      set a, file | a in out.response.allocs && file in {MemoryMigrate, MemorySpreadPage, MemorySpreadSlab} ::
        (a.id, file)
  }

  /** A call whose writes all succeed and finish before anything else happens. */
  function SyncStep(s: Sys, adds: seq<Workload>, removes: seq<Id>, out: Attempt): Sys {
    var s' := IsolateStep(s, adds, removes, out, AllFiles(out));
    s'.(cg := FinishAll(s'.cg))
  }

  lemma SyncIsolated(s: Sys, adds: seq<Workload>, removes: seq<Id>, out: Attempt)
    requires s.cg.jobs == []
    ensures var s' := SyncStep(s, adds, removes, out);
            && s'.cg.jobs == []
            && s'.cg.isolated
            == s.cg.isolated - ToSet(removes) + (if out.Answered? then Changed(s.last, out.response.allocs) else {})
  {
    hide Apply, Requested, Changed, Unchanged, FinishAll, OnTheSpot;
    var s' := IsolateStep(s, adds, removes, out, AllFiles(out));
    var cg := Release(s.cg, ToSet(removes));
    FinishAllIsolates(s'.cg);
    NoJobs(cg);
    if out.Answered? {
      ApplyIsolates(cg, s.last, s'.last, AllFiles(out));
    }
  }

  lemma NoJobs(cg: Cgroups)
    ensures cg.jobs == [] ==> JobIds(cg) == {}
  {
  }

  lemma ChangedAmong(last: seq<Allocation>, allocs: seq<Allocation>)
    ensures forall v :: v in Changed(last, allocs) ==> exists a :: a in allocs && a.id == v
  {
  }

  /** A response answers for nobody twice and for requested workloads only, as those of this repository do. */
  ghost predicate AnswersRequested(ws: seq<Workload>, out: Attempt) {
    out.Answered? ==>
      DistinctAllocations(out.response.allocs) && forall a :: a in out.response.allocs ==> a.id in Ids(ws)
  }

  lemma OwnAnswersRequested(allocator: Allocator, shape: Shape, pl: Placement, ws: seq<Workload>, flags: Flags,
                            outside: Outside, out: Attempt)
    requires DistinctIds(ws) && Own(allocator) && May(allocator, shape, pl, ws, flags, outside, out)
    ensures AnswersRequested(ws, out)
  {
    hide May, AllocationsOf, DistinctIds, Ids;
    if out.Answered? {
      OwnRespond(allocator, shape, pl, ws, flags, outside, out);
      AllocationIds(shape, out.response.pl, ws, flags);
    }
  }

  /** With synchronous writes, only held workloads are ever isolated. */
  lemma IsolatedAreHeld(s: Sys, adds: seq<Workload>, removes: seq<Id>, out: Attempt)
    requires DistinctIds(s.ws) && s.cg.jobs == [] && s.cg.isolated <= Ids(s.ws)
    requires AnswersRequested(Requested(s.ws, adds, removes), out)
    ensures var s' := SyncStep(s, adds, removes, out);
            s'.cg.jobs == [] && s'.cg.isolated <= Ids(s'.ws)
  {
    hide Apply, Unchanged, FinishAll, Requested, DistinctIds;
    SyncIsolated(s, adds, removes, out);
    RequestedFacts(s.ws, adds, removes);
    if out.Answered? { ChangedAmong(s.last, out.response.allocs); }
  }

  /** Every workload of the last response counts as isolated. */
  ghost predicate AllIsolated(s: Sys) { forall a :: a in s.last ==> a.id in s.cg.isolated }

  /**
    A successful call keeps every answered workload isolated exactly when no removed id comes back with an
    unchanged allocation: its release takes effect, and the write that would isolate it again is skipped.
   */
  lemma IsolatedUnlessSkipped(s: Sys, adds: seq<Workload>, removes: seq<Id>, out: Attempt)
    requires s.cg.jobs == [] && AllIsolated(s) && out.Answered? && DistinctAllocations(out.response.allocs)
    ensures var s' := SyncStep(s, adds, removes, out);
            AllIsolated(s') <==> forall a :: a in s'.last && a.id in removes ==> !Unchanged(s.last, a)
  {
    hide Apply, FinishAll, Requested, Same;
    SyncIsolated(s, adds, removes, out);
    var s' := SyncStep(s, adds, removes, out);
    forall a | a in s'.last
      ensures a.id in s'.cg.isolated <==> (a.id in removes ==> !Unchanged(s.last, a))
    {
      if Unchanged(s.last, a) {
        LastForMember(s.last, a.id);
        forall b | b in s'.last && b.id == a.id ensures b == a {
        }
        assert a.id !in Changed(s.last, s'.last);
      }
    }
  }

  /** So a call in which no id is both added and removed keeps them all isolated. */
  lemma IsolatedWithoutRestarts(s: Sys, adds: seq<Workload>, removes: seq<Id>, out: Attempt)
    requires DistinctIds(s.ws) && s.cg.jobs == [] && AllIsolated(s) && out.Answered?
    requires AnswersRequested(Requested(s.ws, adds, removes), out) && Ids(adds) !! ToSet(removes)
    ensures AllIsolated(SyncStep(s, adds, removes, out))
  {
    hide Apply, FinishAll, Requested, DistinctIds, AllIsolated;
    RequestedFacts(s.ws, adds, removes);
    IsolatedUnlessSkipped(s, adds, removes, out);
    var s' := SyncStep(s, adds, removes, out);
    forall a | a in s'.last ensures a.id !in removes {
      assert a.id !in ToSet(removes);
    }
  }

  /** One call of a run: what was asked and what the allocator, whichever it is, came to. */
  datatype Call = Call(adds: seq<Workload>, removes: seq<Id>, out: Attempt)

  /** A run from a manager that has just started, in which every write succeeds before the next call. */
  ghost predicate IsSyncRun(states: seq<Sys>, calls: seq<Call>) {
    && |states| == |calls| + 1
    && states[0].ws == [] && states[0].last == [] && states[0].cg == EMPTY
    && forall i :: 0 <= i < |calls| ==>
         && AnswersRequested(Requested(states[i].ws, calls[i].adds, calls[i].removes), calls[i].out)
         && states[i + 1] == SyncStep(states[i], calls[i].adds, calls[i].removes, calls[i].out)
  }

  /**
    Over whole runs, whatever the allocator does: only held workloads are isolated, and as long as every call
    succeeded and none added an id that it removed, every workload of the last response is.
   */
  lemma {:induction false} RunIsolation(states: seq<Sys>, calls: seq<Call>, i: nat)
    requires IsSyncRun(states, calls) && i < |states|
    ensures DistinctIds(states[i].ws) && states[i].cg.jobs == [] && states[i].cg.isolated <= Ids(states[i].ws)
    ensures (forall j :: 0 <= j < i ==> calls[j].out.Answered? && Ids(calls[j].adds) !! ToSet(calls[j].removes))
            ==> AllIsolated(states[i])
    decreases i
  {
    hide AllIsolated, DistinctIds, Apply, FinishAll, Requested, Ids, ToSet, AnswersRequested, AllFiles;
    if i > 0 {
      RunIsolation(states, calls, i - 1);
      var s, call := states[i - 1], calls[i - 1];
      RequestedFacts(s.ws, call.adds, call.removes);
      IsolatedAreHeld(s, call.adds, call.removes, call.out);
      if call.out.Answered? && AllIsolated(s) && Ids(call.adds) !! ToSet(call.removes) {
        IsolatedWithoutRestarts(s, call.adds, call.removes, call.out);
      }
    } else {
      NothingIsolated(states[0]);
    }
  }

  lemma NothingIsolated(s: Sys)
    requires s.ws == [] && s.last == [] && s.cg == EMPTY
    ensures DistinctIds(s.ws) && s.cg.isolated <= Ids(s.ws) && AllIsolated(s)
  {
  }

  // ---- where the promise fails ----

  /** A manager that has just started on an idle CPU. */
  function Fresh(pl: Placement): Sys { Sys(pl, [], [], EMPTY) }

  /**
    From a manager that has just started, with the greedy allocator: a workload is added, then dies and starts again
    in one call. It runs on, and is isolated after the first call but not after the second.
   */
  lemma {:induction false} RestartLosesIsolation(shape: Shape, flags: Flags, pl: Placement, w: Workload,
                                                 outside: Outside)
    returns (first: Attempt, second: Attempt)
    requires WellFormed(shape) && Covers(shape, pl) && 0 < w.count <= |Threads(shape)|
    ensures first.Answered? && second.Answered?
    ensures var s1 := SyncStep(Fresh(pl), [w], [], first);
            var s2 := SyncStep(s1, [w], [w.id], second);
            && May(Single(Greedy), shape, pl, Requested([], [w], []), flags, outside, first)
            && May(Single(Greedy), shape, s1.pl, Requested(s1.ws, [w], [w.id]), flags, outside, second)
            && HeldBy(s1.pl, w.id) != {} && w.id in s1.cg.isolated
            && HeldBy(s2.pl, w.id) != {} && w.id !in s2.cg.isolated
  {
    hide AllocationsOf, FinishAll, Apply, GreedyIsolate, WellFormed, HeldBy, DistinctIds, Unchanged, Changed;
    RestartRequests(w);
    first := GreedyAnswer(shape, flags, pl, w, outside);
    second := first;
    var s0 := Fresh(pl);
    var s1 := SyncStep(s0, [w], [], first);
    assert s1.ws == [w] && s1.pl == first.response.pl && s1.last == first.response.allocs;
    ClearedAlike(shape, pl, s1.pl, [w]);
    SyncIsolated(s0, [w], [], first);
    SyncIsolated(s1, [w], [w.id], second);
    var a := AllocationFor(shape, s1.pl, w, flags);
    AllChanged(s1.last);
    NotChanged(s1.last, a);
  }

  /** The greedy allocator's answer to a single workload that fits. */
  lemma GreedyAnswer(shape: Shape, flags: Flags, pl: Placement, w: Workload, outside: Outside) returns (out: Attempt)
    requires WellFormed(shape) && Covers(shape, pl) && 0 < w.count <= |Threads(shape)|
    ensures out.Answered? && May(Single(Greedy), shape, pl, [w], flags, outside, out)
    ensures out.response.pl.Keys == pl.Keys && HeldBy(out.response.pl, w.id) != {}
    ensures DistinctAllocations(out.response.allocs)
    ensures AllocationFor(shape, out.response.pl, w, flags) in out.response.allocs
  {
    hide GreedyIsolate, WellFormed, AllocationsOf;
    assert Total([w]) == w.count by { assert [w][..0] == []; }
    GreedyExact(shape, pl, [w]);
    assert [w][0] == w;
    var pl' := GreedyIsolate(shape, pl, [w]).pl;
    assert |HeldBy(pl', w.id)| == w.count;
    AllocatedIffHolding(shape, pl', [w], flags, AllocationFor(shape, pl', w, flags));
    AllocationIds(shape, pl', [w], flags);
    out := Answered(Respond(shape, pl', [w], flags));
  }

  lemma NotChanged(allocs: seq<Allocation>, a: Allocation)
    requires DistinctAllocations(allocs) && a in allocs
    ensures a.id !in Changed(allocs, allocs)
  {
    forall b | b in allocs ensures Unchanged(allocs, b) {
      LastForItself(allocs, b);
    }
  }

  lemma AllChanged(allocs: seq<Allocation>)
    ensures forall a :: a in allocs ==> a.id in Changed([], allocs)
  {
  }

  lemma RestartRequests(w: Workload)
    ensures Requested([], [w], []) == [w] && Requested([w], [w], [w.id]) == [w]
  {
    assert Pop([w], w.id) == [] by { assert [w][..0] == []; }
    assert PopAll([w], [w.id]) == Pop([w], w.id) by { assert [w.id][..0] == []; }
    assert PutAll([], [w]) == Put([], w) by { assert [w][..0] == []; }
  }

  /**
    The cpuset write is started first but runs on its own thread, while the memory settings are written on the spot.
    Right after a call a changed workload's cpuset write is still under way, and the workload counts as isolated
    exactly when one of its memory settings could be written, or when it was isolated before and not removed.
   */
  lemma IsolatedBeforeCpuset(s: Sys, adds: seq<Workload>, removes: seq<Id>, out: Attempt, reachable: set<(Id, File)>,
                             a: Allocation)
    requires out.Answered? && a in out.response.allocs && !Unchanged(s.last, a)
    ensures var s' := IsolateStep(s, adds, removes, out, reachable);
            && Pending(s'.cg, a.id, Cpuset)
            && (a.id in s'.cg.isolated <==>
                  a.id in OnTheSpot(reachable) || (a.id in s.cg.isolated && a.id !in removes))
  {
    hide Requested, Unchanged, OnTheSpot;
    var cg := Release(s.cg, ToSet(removes));
    ApplyIsolates(cg, s.last, out.response.allocs, reachable);
    ApplyPends(cg, s.last, out.response.allocs, reachable, a);
    assert a.id in Changed(s.last, out.response.allocs);
    assert a.id in removes <==> a.id in ToSet(removes);
  }

  /**
    From a manager that has just started, with the greedy allocator: a workload is added and counts as isolated while
    its cpuset has not been written.
   */
  lemma {:induction false} IsolatedTooSoon(shape: Shape, flags: Flags, pl: Placement, w: Workload, outside: Outside)
    returns (out: Attempt)
    requires WellFormed(shape) && Covers(shape, pl) && 0 < w.count <= |Threads(shape)|
    ensures May(Single(Greedy), shape, pl, Requested([], [w], []), flags, outside, out)
    ensures var s := IsolateStep(Fresh(pl), [w], [], out, {(w.id, MemoryMigrate)});
            && w in s.ws && HeldBy(s.pl, w.id) != {}
            && w.id in s.cg.isolated && Pending(s.cg, w.id, Cpuset) && (w.id, Cpuset) !in s.cg.files
  {
    hide May, HeldBy, AllocationsOf, WellFormed, Apply, Unchanged;
    RestartRequests(w);
    out := GreedyAnswer(shape, flags, pl, w, outside);
    var a := AllocationFor(shape, out.response.pl, w, flags);
    assert !Unchanged([], a) by { NothingBefore(a); }
    IsolatedBeforeCpuset(Fresh(pl), [w], [], out, {(w.id, MemoryMigrate)}, a);
    SpotFiles(w.id, {(w.id, MemoryMigrate)});
    NoCpusetWritten(Release(EMPTY, ToSet<Id>([])), [], out.response.allocs, {(w.id, MemoryMigrate)}, w.id);
  }

  lemma NothingBefore(a: Allocation)
    ensures !Unchanged([], a)
  {
  }

  /** Cpusets are never written on the spot. */
  lemma {:induction false} NoCpusetWritten(cg: Cgroups, last: seq<Allocation>, allocs: seq<Allocation>,
                                           reachable: set<(Id, File)>, id: Id)
    ensures (id, Cpuset) in Apply(cg, last, allocs, reachable).files <==> (id, Cpuset) in cg.files
    decreases |allocs|
  {
    hide Unchanged, Update;
    if allocs != [] {
      var n := |allocs| - 1;
      NoCpusetWritten(cg, last, allocs[..n], reachable, id);
      UpdateNoCpuset(Apply(cg, last, allocs[..n], reachable), allocs[n], reachable, id);
    }
  }

  lemma UpdateNoCpuset(cg: Cgroups, a: Allocation, reachable: set<(Id, File)>, id: Id)
    ensures (id, Cpuset) in Update(cg, a, reachable).files <==> (id, Cpuset) in cg.files
  {
  }

  /**
    And later, while the cpuset write is still under way: it stays so until that very write ends, and a workload
    becomes isolated exactly by a write of its own that succeeds, such as that of its quota.
   */
  lemma IsolatedByAnyWrite(cg: Cgroups, i: nat, ok: bool, id: Id)
    requires i < |cg.jobs|
    ensures id in Finish(cg, i, ok).isolated <==> id in cg.isolated || (ok && cg.jobs[i].id == id)
    ensures !IsJob(cg.jobs[i], id, Cpuset) ==> (Pending(Finish(cg, i, ok), id, Cpuset) <==> Pending(cg, id, Cpuset))
  {
    var cg' := Finish(cg, i, ok);
    if !IsJob(cg.jobs[i], id, Cpuset) && Pending(cg, id, Cpuset) {
      var job :| job in cg.jobs && IsJob(job, id, Cpuset);
      var k :| 0 <= k < |cg.jobs| && cg.jobs[k] == job;
      assert cg'.jobs[if k < i then k else k - 1] == job;
    }
  }

  lemma {:induction false} ApplyPends(cg: Cgroups, last: seq<Allocation>, allocs: seq<Allocation>,
                                      reachable: set<(Id, File)>, a: Allocation)
    requires a in allocs && !Unchanged(last, a)
    ensures Pending(Apply(cg, last, allocs, reachable), a.id, Cpuset)
    decreases |allocs|
  {
    hide Unchanged, Update;
    var n := |allocs| - 1;
    assert allocs == allocs[..n] + [allocs[n]];
    var before, after := Apply(cg, last, allocs[..n], reachable), Apply(cg, last, allocs, reachable);
    UpdateStarts(before, allocs[n], reachable);
    if a == allocs[n] {
      assert Started(a)[0] in after.jobs && IsJob(Started(a)[0], a.id, Cpuset);
    } else {
      ApplyPends(cg, last, allocs[..n], reachable, a);
      var j :| j in before.jobs && IsJob(j, a.id, Cpuset);
      assert j in after.jobs;
    }
  }
}
