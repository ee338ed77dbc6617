/**
  The manager as a write cache. Cpuset, quota and shares are written by threads of their own that may finish in any
  order across containers, the kernel may show a cpuset in its own form at any time, and calls whose allocation has
  not changed are skipped. Whenever no write is under way, every answered workload's files agree with the CPU.
  Everything is stated for one of the six files at a time: only writes to that file are assumed to succeed.
 */
module Coherence {
  import opened Collections
  import opened Topology
  import opened GreedyPlacement
  import opened Allocations
  import opened Allocators
  import opened WorkloadMap
  import opened CpusetText
  import opened Cgroups
  import opened WriteCache
  import opened Manager
  import opened Fallback

  datatype Step =
    | Isolate(adds: seq<Workload>, removes: seq<Id>, outside: Outside, out: Attempt, reachable: set<(Id, File)>)
    | FinishJob(i: nat, ok: bool)
    | KernelRewrites(id: Id)
    | Gone(id: Id)

  /** The files that are written by threads of their own. */
  predicate Async(file: File) { file.Cpuset? || file.Quota? || file.Shares? }

  ghost predicate IsJob(job: Job, id: Id, file: File) { job.id == id && job.file == file }

  ghost predicate Pending(cg: Cgroups, id: Id, file: File) { exists job :: job in cg.jobs && IsJob(job, id, file) }

  /** The kernel shows a file it accepted in its own list format. */
  function Rewritten(cg: Cgroups, id: Id): Cgroups {
    match CpusetOf(cg, id)
    case Failure => cg
    case Success(ids) => if ids == [] then cg else cg.(files := cg.files[(id, Cpuset) := KernelText(ids)])
  }

  /** The container has died and its cgroup is removed: none of its files can be read any more. */
  function Removed(cg: Cgroups, id: Id): Cgroups {
    cg.(files := map key | key in cg.files && key.0 != id :: cg.files[key])
  }

  function Next(s: Sys, step: Step): Sys {
    match step
    case Isolate(adds, removes, _, out, reachable) => IsolateStep(s, adds, removes, out, reachable)
    case FinishJob(i, ok) => if i < |s.cg.jobs| then s.(cg := Finish(s.cg, i, ok)) else s
    case KernelRewrites(id) => s.(cg := Rewritten(s.cg, id))
    case Gone(id) => s.(cg := Removed(s.cg, id))
  }

  /** The last response answers for this container. */
  ghost predicate AnsweredFor(s: Sys, id: Id) { exists a :: a in s.last && a.id == id }

  /** What a run is about: the allocator, the processor, the configuration, and the file that is looked at. */
  datatype Setting = Setting(allocator: Allocator, shape: Shape, flags: Flags, file: File)

  /** A changed allocation can be written to this file, and no earlier write to it is under way. */
  ghost predicate Writable(s: Sys, a: Allocation, file: File, reachable: set<(Id, File)>) {
    !Pending(s.cg, a.id, file) && (Async(file) || (a.id, file) in reachable)
  }

  /**
    Writes to this file of a container with an allocation succeed, no container gets a second one while its first is
    under way, and a container's files go only once the last response no longer answers for it.
   */
  ghost predicate Enabled(c: Setting, s: Sys, step: Step) {
    match step
    case Isolate(adds, removes, outside, out, reachable) =>
      && OutsideSound(c.allocator, c.shape, outside)
      && May(c.allocator, c.shape, s.pl, Requested(s.ws, adds, removes), c.flags, outside, out)
      && (out.Answered? ==>
            forall a :: a in out.response.allocs && !Unchanged(s.last, a) ==> Writable(s, a, c.file, reachable))
    case FinishJob(i, ok) =>
      i < |s.cg.jobs| && s.cg.jobs[i].file == c.file && AnsweredFor(s, s.cg.jobs[i].id) ==> ok
    case KernelRewrites(_) => true
    case Gone(id) => !AnsweredFor(s, id)
  }

  /** What is written to a file. */
  function TextFor(a: Allocation, file: File): string {
    match file
    case Cpuset => PrintList(a.threadIds)
    case Quota => PrintNat(a.quota)
    case Shares => PrintNat(a.shares)
    case MemoryMigrate => FlagText(a.flags.migrate)
    case MemorySpreadPage => FlagText(a.flags.spreadPage)
    case MemorySpreadSlab => FlagText(a.flags.spreadSlab)
  }

  /** A cpuset may list its threads in any order and form, the other texts are exact. */
  ghost predicate Says(text: string, a: Allocation, file: File) {
    if file.Cpuset? then
      || (a.threadIds == [] && text == "")
      || (ParseCpuset(text).Success? && Sort(ParseCpuset(text).value) == Sort(a.threadIds))
    else text == TextFor(a, file)
  }

  ghost predicate FileHolds(cg: Cgroups, a: Allocation, file: File) {
    (a.id, file) in cg.files && Says(cg.files[(a.id, file)], a, file)
  }

  /** Whatever is being written for the container is this allocation, and if nothing is, the file holds it. */
  ghost predicate Coherent(cg: Cgroups, a: Allocation, file: File) {
    && (forall job :: job in cg.jobs && IsJob(job, a.id, file) ==> Says(job.text, a, file))
    && (Pending(cg, a.id, file) || FileHolds(cg, a, file))
  }

  ghost predicate Inv(c: Setting, s: Sys) {
    && WellFormed(c.shape) && Covers(c.shape, s.pl) && DistinctIds(s.ws)
    && Lists(Response(s.pl, s.last))
    && forall a :: a in s.last ==> Coherent(s.cg, a, c.file)
  }

  lemma EmptyText()
    ensures PrintList([]) == "" && ParseCpuset("") == Failure
  {
    ListRoundTrip([]);
  }

  lemma TextSays(a: Allocation, file: File)
    ensures Says(TextFor(a, file), a, file)
  {
    hide PrintNat, ParseCpuset, Sort;
    ListRoundTrip(a.threadIds);
  }

  /** Equal allocations are told by the same texts, though they may list the threads in different orders. */
  lemma SameSays(text: string, a: Allocation, b: Allocation, file: File)
    requires Same(a, b) && NoDup(a.threadIds) && NoDup(b.threadIds) && Says(text, b, file)
    ensures Says(text, a, file)
  {
    hide PrintList, PrintNat, ParseCpuset, Sort;
    SameMeansSameThreads(a, b);
    SortedAlike(a.threadIds, b.threadIds);
    assert |a.threadIds| == |multiset(a.threadIds)| == |multiset(b.threadIds)| == |b.threadIds|;
  }

  // ---- one update ----

  /** As far as this file of the container goes, nothing has happened. */
  ghost predicate SameFile(cg: Cgroups, cg': Cgroups, id: Id, file: File) {
    && (forall job :: IsJob(job, id, file) ==> (job in cg.jobs <==> job in cg'.jobs))
    && ((id, file) in cg.files <==> (id, file) in cg'.files)
    && ((id, file) in cg.files ==> cg.files[(id, file)] == cg'.files[(id, file)])
  }

  lemma SameFileCoherent(cg: Cgroups, cg': Cgroups, a: Allocation, file: File)
    requires SameFile(cg, cg', a.id, file) && Coherent(cg, a, file)
    ensures Coherent(cg', a, file)
  {
    hide Says;
  }

  lemma UpdateElsewhere(cg: Cgroups, a: Allocation, reachable: set<(Id, File)>, id: Id, file: File)
    requires id != a.id
    ensures SameFile(cg, Update(cg, a, reachable), id, file)
  {
    hide PrintList, PrintNat;
  }

  /** The writes that an update starts, one for each file with a thread of its own. */
  function Started(a: Allocation): seq<Job> {
    [Job(a.id, Cpuset, TextFor(a, Cpuset)), Job(a.id, Quota, TextFor(a, Quota)), Job(a.id, Shares, TextFor(a, Shares))]
  }

  lemma StartedFacts(a: Allocation, file: File)
    ensures forall job :: job in Started(a) ==> job.text == TextFor(a, job.file)
    ensures Async(file) ==> Job(a.id, file, TextFor(a, file)) in Started(a)
  {
    hide TextFor;
    var started := Started(a);
    assert started[0] in started && started[1] in started && started[2] in started;
  }

  lemma UpdateStarts(cg: Cgroups, a: Allocation, reachable: set<(Id, File)>)
    ensures Update(cg, a, reachable).jobs == cg.jobs + Started(a)
  {
    hide PrintList, PrintNat;
  }

  lemma UpdateWrites(cg: Cgroups, a: Allocation, reachable: set<(Id, File)>, file: File)
    requires !Async(file) && (a.id, file) in reachable
    ensures var cg' := Update(cg, a, reachable);
            (a.id, file) in cg'.files && cg'.files[(a.id, file)] == TextFor(a, file)
  {
    hide PrintList, PrintNat;
  }

  lemma UpdateCoherent(cg: Cgroups, a: Allocation, reachable: set<(Id, File)>, file: File)
    requires !Pending(cg, a.id, file) && (Async(file) || (a.id, file) in reachable)
    ensures Coherent(Update(cg, a, reachable), a, file)
  {
    hide Update, TextFor, Started, Says;
    var cg' := Update(cg, a, reachable);
    TextSays(a, file);
    StartedFacts(a, file);
    UpdateStarts(cg, a, reachable);
    if Async(file) {
      var job := Job(a.id, file, TextFor(a, file));
      assert job in cg'.jobs && IsJob(job, a.id, file);
    } else {
      UpdateWrites(cg, a, reachable, file);
    }
  }

  lemma {:induction false} ApplyElsewhere(cg: Cgroups, last: seq<Allocation>, allocs: seq<Allocation>,
                                          reachable: set<(Id, File)>, id: Id, file: File)
    requires forall a :: a in allocs ==> a.id != id
    ensures SameFile(cg, Apply(cg, last, allocs, reachable), id, file)
    decreases |allocs|
  {
    hide Update;
    if allocs != [] {
      var n := |allocs| - 1;
      assert allocs == allocs[..n] + [allocs[n]];
      ApplyElsewhere(cg, last, allocs[..n], reachable, id, file);
      UpdateElsewhere(Apply(cg, last, allocs[..n], reachable), allocs[n], reachable, id, file);
    }
  }

  lemma {:induction false} ApplyCoherent(cg: Cgroups, last: seq<Allocation>, allocs: seq<Allocation>,
                                         reachable: set<(Id, File)>, a: Allocation, file: File)
    requires DistinctAllocations(allocs) && a in allocs
    requires if Unchanged(last, a) then Coherent(cg, a, file)
             else !Pending(cg, a.id, file) && (Async(file) || (a.id, file) in reachable)
    ensures Coherent(Apply(cg, last, allocs, reachable), a, file)
    decreases |allocs|
  {
    hide Coherent, Unchanged, Update;
    var n := |allocs| - 1;
    assert allocs == allocs[..n] + [allocs[n]];
    var before := Apply(cg, last, allocs[..n], reachable);
    if a == allocs[n] {
      assert forall b :: b in allocs[..n] ==> b.id != a.id;
      ApplyElsewhere(cg, last, allocs[..n], reachable, a.id, file);
      if Unchanged(last, a) {
        SameFileCoherent(cg, before, a, file);
      } else {
        UpdateCoherent(before, a, reachable, file);
      }
    } else {
      ApplyCoherent(cg, last, allocs[..n], reachable, a, file);
      assert a.id != allocs[n].id;
      UpdateElsewhere(before, allocs[n], reachable, a.id, file);
      if !Unchanged(last, allocs[n]) {
        SameFileCoherent(before, Update(before, allocs[n], reachable), a, file);
      }
    }
  }

  // ---- every step keeps the invariant ----

  /** A skipped allocation is told by whatever tells the one it equals. */
  lemma SkippedCoherent(c: Setting, s: Sys, r: Response, a: Allocation)
    requires Inv(c, s) && Lists(r) && a in r.allocs && Unchanged(s.last, a)
    ensures Coherent(s.cg, a, c.file)
  {
    hide Says, Same, WellFormed, Covers, DistinctIds;
    LastForMember(s.last, a.id);
    var b := LastFor(s.last, a.id).value;
    forall text | Says(text, b, c.file) ensures Says(text, a, c.file) {
      SameSays(text, a, b, c.file);
    }
  }

  lemma ReleaseCoherent(cg: Cgroups, ids: set<Id>, id: Id, file: File)
    ensures SameFile(cg, Release(cg, ids), id, file)
    ensures Pending(Release(cg, ids), id, file) <==> Pending(cg, id, file)
  {
  }

  lemma IsolateKeeps(c: Setting, s: Sys, step: Step)
    requires Inv(c, s) && Enabled(c, s, step) && step.Isolate?
    ensures Inv(c, Next(s, step))
  {
    hide Coherent, Apply, Unchanged, WellFormed, Pending, Requested, DistinctIds, May, OutsideSound, Lists;
    var cg := Release(s.cg, ToSet(step.removes));
    var ws := Requested(s.ws, step.adds, step.removes);
    RequestedFacts(s.ws, step.adds, step.removes);
    AllocatorsServe(c.allocator, c.shape, s.pl, ws, c.flags, step.outside, step.out);
    if step.out.Answered? {
      ResponseKeeps(c, s, cg, ToSet(step.removes), step.out.response, step.reachable);
    } else {
      forall a | a in s.last ensures Coherent(cg, a, c.file) {
        ReleaseCoherent(s.cg, ToSet(step.removes), a.id, c.file);
        SameFileCoherent(s.cg, cg, a, c.file);
      }
    }
  }

  /** Coherence needs nothing of a response but that it answers for what it claims. */
  lemma ResponseKeeps(c: Setting, s: Sys, cg: Cgroups, removes: set<Id>, r: Response, reachable: set<(Id, File)>)
    requires Inv(c, s) && cg == Release(s.cg, removes) && Lists(r)
    requires forall a :: a in r.allocs && !Unchanged(s.last, a) ==> Writable(s, a, c.file, reachable)
    ensures forall a :: a in r.allocs ==> Coherent(Apply(cg, s.last, r.allocs, reachable), a, c.file)
  {
    hide Coherent, Apply, Unchanged, WellFormed, Pending;
    forall a | a in r.allocs ensures Coherent(Apply(cg, s.last, r.allocs, reachable), a, c.file) {
      ReleaseCoherent(s.cg, removes, a.id, c.file);
      if Unchanged(s.last, a) {
        SkippedCoherent(c, s, r, a);
        SameFileCoherent(s.cg, cg, a, c.file);
      }
      ApplyCoherent(cg, s.last, r.allocs, reachable, a, c.file);
    }
  }

  /** The end of any write keeps the file coherent, unless it is a write to this very file that fails. */
  lemma FinishKeeps(cg: Cgroups, i: nat, ok: bool, a: Allocation, file: File)
    requires i < |cg.jobs| && Coherent(cg, a, file) && (IsJob(cg.jobs[i], a.id, file) ==> ok)
    ensures Coherent(Finish(cg, i, ok), a, file)
  {
    hide Says;
    var cg', done := Finish(cg, i, ok), cg.jobs[i];
    forall job | job in cg'.jobs ensures job in cg.jobs {
    }
    if IsJob(done, a.id, file) {
      assert FileHolds(cg', a, file);
    } else if Pending(cg, a.id, file) {
      var job :| job in cg.jobs && IsJob(job, a.id, file);
      var k :| 0 <= k < |cg.jobs| && cg.jobs[k] == job;
      assert cg'.jobs[if k < i then k else k - 1] == job;
    }
  }

  lemma RewriteKeeps(cg: Cgroups, id: Id, a: Allocation, file: File)
    requires Coherent(cg, a, file)
    ensures Coherent(Rewritten(cg, id), a, file)
  {
    hide PrintList, PrintNat, ParseCpuset, Sort, KernelText;
    EmptyText();
    match CpusetOf(cg, id)
    case Failure =>
    case Success(ids) =>
      if ids != [] {
        KernelRoundTrip(ids);
      }
  }

  lemma RemoveKeeps(cg: Cgroups, id: Id, a: Allocation, file: File)
    requires Coherent(cg, a, file) && a.id != id
    ensures Coherent(Removed(cg, id), a, file)
  {
    hide Says;
  }

  lemma StepKeeps(c: Setting, s: Sys, step: Step)
    requires Inv(c, s) && Enabled(c, s, step)
    ensures Inv(c, Next(s, step))
  {
    hide Coherent, WellFormed, IsolateStep, Finish, Rewritten, Removed, Lists;
    match step
    case Isolate(_, _, _, _, _) => IsolateKeeps(c, s, step);
    case FinishJob(i, ok) =>
      if i < |s.cg.jobs| {
        forall a | a in s.last ensures Coherent(Finish(s.cg, i, ok), a, c.file) {
          FinishKeeps(s.cg, i, ok, a, c.file);
        }
      }
    case KernelRewrites(id) =>
      forall a | a in s.last ensures Coherent(Rewritten(s.cg, id), a, c.file) {
        RewriteKeeps(s.cg, id, a, c.file);
      }
    case Gone(id) =>
      forall a | a in s.last ensures Coherent(Removed(s.cg, id), a, c.file) {
        RemoveKeeps(s.cg, id, a, c.file);
      }
  }

  // ---- runs ----

  /** The manager has just started on an idle CPU; what the cgroup files hold does not matter. */
  ghost predicate Initial(shape: Shape, s: Sys) {
    WellFormed(shape) && Covers(shape, s.pl) && AllEmpty(s.pl) && s.ws == [] && s.last == []
  }

  ghost predicate IsRun(c: Setting, states: seq<Sys>, steps: seq<Step>) {
    && |states| == |steps| + 1 && Initial(c.shape, states[0])
    && forall i :: 0 <= i < |steps| ==>
         Enabled(c, states[i], steps[i]) && states[i + 1] == Next(states[i], steps[i])
  }

  lemma {:induction false} RunKeeps(c: Setting, states: seq<Sys>, steps: seq<Step>, i: nat)
    requires IsRun(c, states, steps) && i < |states|
    ensures Inv(c, states[i])
    decreases i
  {
    hide Enabled, Next, WellFormed, Coherent;
    if i == 0 {
      assert WorkloadsOn(states[0].pl) == {};
    } else {
      RunKeeps(c, states, steps, i - 1);
      StepKeeps(c, states[i - 1], steps[i - 1]);
    }
  }
}
