/**
  What a reader finds in the cgroup files whenever no write is under way: each file of every answered workload tells
  its allocation, and the cpusets agree with the CPU.
 */
module Quiescence {
  import opened Collections
  import opened Topology
  import opened GreedyPlacement
  import opened Allocations
  import opened Allocators
  import opened WorkloadMap
  import opened CpusetText
  import opened Cgroups
  import opened Manager
  import opened Fallback
  import opened Coherence

  /** What a reader finds in a file of the workload. */
  ghost predicate Tells(cg: Cgroups, a: Allocation, file: File) {
    && (a.id, file) in cg.files
    && var text := cg.files[(a.id, file)];
       match file
       case Cpuset =>
         if a.threadIds == [] then CpusetOf(cg, a.id).Failure? || CpusetOf(cg, a.id) == Success([])
         else CpusetOf(cg, a.id).Success? && Sort(CpusetOf(cg, a.id).value) == Sort(a.threadIds)
       case Quota => ParseNat(text) == Some(a.quota)
       case Shares => ParseNat(text) == Some(a.shares)
       case MemoryMigrate => text == if a.flags.migrate then "1" else "0"
       case MemorySpreadPage => text == if a.flags.spreadPage then "1" else "0"
       case MemorySpreadSlab => text == if a.flags.spreadSlab then "1" else "0"
  }

  lemma HeldTells(cg: Cgroups, a: Allocation, file: File)
    requires FileHolds(cg, a, file)
    ensures Tells(cg, a, file)
  {
    hide PrintList, PrintNat, ParseNat, ParseCpuset;
    EmptyText();
    SortsToNothing(if CpusetOf(cg, a.id).Success? then CpusetOf(cg, a.id).value else []);
    ParsePrinted(a.quota);
    ParsePrinted(a.shares);
  }

  lemma SortsToNothing(ids: seq<nat>)
    ensures Sort(ids) == [] <==> ids == []
  {
    SortFacts(ids);
    assert |Sort(ids)| == |multiset(Sort(ids))| == |multiset(ids)| == |ids|;
  }

  /**
    Coherence: at every quiescent point of every run, whatever the allocator, each file of every workload of the last
    response tells its allocation: the threads, quota and shares, and the memory settings.
   */
  lemma FilesTell(c: Setting, states: seq<Sys>, steps: seq<Step>, i: nat, a: Allocation)
    requires IsRun(c, states, steps) && i < |states| && states[i].cg.jobs == [] && a in states[i].last
    ensures Tells(states[i].cg, a, c.file)
  {
    hide IsRun, FileHolds, Tells;
    RunKeeps(c, states, steps, i);
    assert Coherent(states[i].cg, a, c.file);
    HeldTells(states[i].cg, a, c.file);
  }

  /** The cpuset file of `v` reads back as exactly the threads that `v` holds. */
  ghost predicate Agrees(shape: Shape, pl: Placement, cg: Cgroups, v: Id) {
    CpusetOf(cg, v).Success? && Sort(CpusetOf(cg, v).value) == Sort(ThreadsOf(shape, pl, v))
  }

  /** In particular the cpuset file of every claimed workload agrees with the CPU. */
  lemma CoherentWhenQuiet(c: Setting, states: seq<Sys>, steps: seq<Step>, i: nat)
    requires IsRun(c, states, steps) && c.file == Cpuset && i < |states| && states[i].cg.jobs == []
    ensures forall v :: v in WorkloadsOn(states[i].pl) ==> Agrees(c.shape, states[i].pl, states[i].cg, v)
  {
    hide IsRun, Coherent, Agrees, WellFormed, Tells, WorkloadsOn;
    var s := states[i];
    RunKeeps(c, states, steps, i);
    forall v | v in WorkloadsOn(s.pl) ensures Agrees(c.shape, s.pl, s.cg, v) {
      var a :| a in s.last && a.id == v;
      FilesTell(c, states, steps, i, a);
      OnIffHeld(s.pl, v);
      ToldAgrees(c.shape, s.pl, s.cg, a);
    }
  }

  lemma ToldAgrees(shape: Shape, pl: Placement, cg: Cgroups, a: Allocation)
    requires WellFormed(shape) && Covers(shape, pl) && HeldBy(pl, a.id) != {} && Tells(cg, a, Cpuset)
    requires NoDup(a.threadIds) && ToSet(a.threadIds) == HeldBy(pl, a.id)
    ensures Agrees(shape, pl, cg, a.id)
  {
    hide WellFormed, Sort, CpusetOf, HeldBy;
    ThreadsOfFacts(shape, pl, a.id);
    ThreadsOfDistinct(shape, pl, a.id);
    SameMultiset(a.threadIds, ThreadsOf(shape, pl, a.id));
    SortedAlike(a.threadIds, ThreadsOf(shape, pl, a.id));
    assert a.threadIds == [] ==> ToSet(a.threadIds) == {};
  }

  /** A freshly written file agrees with the CPU exactly when the allocation lists no thread twice. */
  lemma WrittenAgreesIff(shape: Shape, pl: Placement, cg: Cgroups, a: Allocation)
    requires WellFormed(shape) && Covers(shape, pl) && ToSet(a.threadIds) == HeldBy(pl, a.id) != {}
    requires (a.id, Cpuset) in cg.files && cg.files[(a.id, Cpuset)] == TextFor(a, Cpuset)
    ensures Agrees(shape, pl, cg, a.id) <==> NoDup(a.threadIds)
  {
    hide WellFormed, HeldBy, Sort, PrintList, ParseCpuset;
    var ids := ThreadsOf(shape, pl, a.id);
    assert a.threadIds == [] ==> ToSet(a.threadIds) == {};
    ListRoundTrip(a.threadIds);
    ThreadsOfFacts(shape, pl, a.id);
    ThreadsOfDistinct(shape, pl, a.id);
    SortedAlike(a.threadIds, ids);
    if NoDup(a.threadIds) {
      SameMultiset(a.threadIds, ids);
    } else if multiset(a.threadIds) == multiset(ids) {
      assert |a.threadIds| == |multiset(a.threadIds)| == |multiset(ids)| == |ids|;
      NoDupCard(ids);
      CardNoDup(a.threadIds);
    }
  }

  // ---- the allocators of the repository ----

  /** No foreign allocator among them. */
  predicate Own(allocator: Allocator) {
    match allocator
    case Single(basic) => !basic.Foreign?
    case Backed(primary, secondary, _) => !primary.Foreign? && !secondary.Foreign?
  }

  lemma OwnRespond(allocator: Allocator, shape: Shape, pl: Placement, ws: seq<Workload>, flags: Flags,
                   outside: Outside, out: Attempt)
    requires Own(allocator) && May(allocator, shape, pl, ws, flags, outside, out) && out.Answered?
    ensures out.response == Respond(shape, out.response.pl, ws, flags)
  {
    hide AllocationsOf, GreedyIsolate;
  }

  /** With such an allocator the last response is always what the CPU and the workload map say. */
  lemma {:induction false} OwnRun(c: Setting, states: seq<Sys>, steps: seq<Step>, i: nat)
    requires IsRun(c, states, steps) && i < |states| && Own(c.allocator)
    ensures states[i].last == AllocationsOf(c.shape, states[i].pl, states[i].ws, c.flags)
    decreases i
  {
    hide May, WellFormed, Apply, Finish, Rewritten, Removed, Requested, OutsideSound;
    if i > 0 {
      OwnRun(c, states, steps, i - 1);
      var s, step := states[i - 1], steps[i - 1];
      if step.Isolate? && step.out.Answered? {
        var ws := Requested(s.ws, step.adds, step.removes);
        OwnRespond(c.allocator, c.shape, s.pl, ws, c.flags, step.outside, step.out);
      }
    }
  }

  /** So quota and shares tell the count of every claimed workload, and the memory files the configuration. */
  lemma CountsTold(c: Setting, states: seq<Sys>, steps: seq<Step>, i: nat, w: Workload)
    requires IsRun(c, states, steps) && i < |states| && states[i].cg.jobs == [] && Own(c.allocator)
    requires w in states[i].ws && HeldBy(states[i].pl, w.id) != {}
    ensures (w.id, c.file) in states[i].cg.files
    ensures var text := states[i].cg.files[(w.id, c.file)];
            match c.file
            case Cpuset => Agrees(c.shape, states[i].pl, states[i].cg, w.id)
            case Quota => ParseNat(text) == Some(w.count * 100000)
            case Shares => ParseNat(text) == Some(w.count * 100)
            case MemoryMigrate => text == if c.flags.migrate then "1" else "0"
            case MemorySpreadPage => text == if c.flags.spreadPage then "1" else "0"
            case MemorySpreadSlab => text == if c.flags.spreadSlab then "1" else "0"
  {
    hide IsRun, Inv, WellFormed, ParseNat, Agrees, CpusetOf, HeldBy, WorkloadsOn;
    var s := states[i];
    OwnRun(c, states, steps, i);
    RunCovers(c, states, steps, i);
    var a := AllocationFor(c.shape, s.pl, w, c.flags);
    AllocatedIffHolding(c.shape, s.pl, s.ws, c.flags, a);
    FilesTell(c, states, steps, i, a);
    if c.file == Cpuset {
      OnIffHeld(s.pl, w.id);
      CoherentWhenQuiet(c, states, steps, i);
    }
  }

  lemma RunCovers(c: Setting, states: seq<Sys>, steps: seq<Step>, i: nat)
    requires IsRun(c, states, steps) && i < |states|
    ensures WellFormed(c.shape) && Covers(c.shape, states[i].pl) && DistinctIds(states[i].ws)
  {
    RunKeeps(c, states, steps, i);
  }
}
