/**
  The workload manager: it asks the allocator for a placement on a private copy of the CPU, writes what changed
  to the cgroups and only then takes over the new CPU, workload map and response.
 */
module Manager {
  import opened Collections
  import opened Topology
  import opened GreedyPlacement
  import opened Allocations
  import opened WorkloadMap
  import opened Cgroups
  import opened Processor
  import opened Allocators
  import opened Fallback
  import opened Reporting
  import opened CpuEquality

  /** The state behind the manager and its cgroups. */
  datatype Sys = Sys(pl: Placement, ws: seq<Workload>, last: seq<Allocation>, cg: Cgroups)

  /** One call of `isolate`, given what the allocator came to and which files can be written on the spot. */
  function IsolateStep(s: Sys, adds: seq<Workload>, removes: seq<Id>, out: Attempt, reachable: set<(Id, File)>): Sys {
    var cg := Release(s.cg, ToSet(removes));
    match out
    case Failed(_) => s.(cg := cg)
    case Answered(r) =>
      Sys(r.pl, Requested(s.ws, adds, removes), r.allocs, Apply(cg, s.last, r.allocs, reachable))
  }

  lemma StepMeans(s: Sys, adds: seq<Workload>, removes: seq<Id>, out: Attempt, reachable: set<(Id, File)>)
    ensures var s' := IsolateStep(s, adds, removes, out, reachable);
            match out
            case Failed(_) =>
              && s'.pl == s.pl && s'.ws == s.ws && s'.last == s.last
              && s'.cg == s.cg.(isolated := s.cg.isolated - ToSet(removes))
            case Answered(r) =>
              s'.pl == r.pl && s'.ws == Requested(s.ws, adds, removes) && s'.last == r.allocs
  {
  }

  /** The allocator object a manager is given. */
  datatype Installed = Alone(basic: Basic) | WithFallback(fallback: FallbackAllocator) {
    function Kind(): Allocator {
      match this
      case Alone(basic) => Single(basic)
      case WithFallback(f) => Backed(f.primary, f.secondary, f.fallbackQueueDepth)
    }

    /** What calls of it write besides the CPU of the request: its call counters. */
    ghost function Counters(): set<FallbackAllocator> {
      if WithFallback? then {fallback} else {}
    }
  }

  class AllocateRequest {
    const cpu: Cpu
    const workloads: seq<Workload>

    /** The request owns a deep copy of the CPU it is given. */
    constructor (cpu: Cpu, workloads: seq<Workload>)
      requires cpu.Valid()
      ensures fresh(this.cpu) && fresh(this.cpu.objects) && this.cpu.Valid()
      ensures this.cpu.shape == cpu.shape && this.cpu.State() == cpu.State() && this.workloads == workloads
    {
      var copy := cpu.DeepCopy();
      this.cpu, this.workloads := copy, workloads;
    }
  }

  class WorkloadManager {
    const allocator: Installed
    const flags: Flags
    const cgroups: FileCgroupManager
    var cpu: Cpu
    var workloads: seq<Workload>
    var lastResponse: seq<Allocation>
    var addedCount: nat
    var removedCount: nat
    var rebalancedCount: nat
    var errorCount: nat

    ghost predicate Valid()
      reads `cpu, `workloads
    {
      cpu.Valid() && DistinctIds(workloads)
    }

    ghost function Abs(): Sys
      requires Valid()
      reads `cpu, `workloads, `lastResponse, cgroups, cpu.objects
    {
      Sys(cpu.State(), workloads, lastResponse, cgroups.Abs())
    }

    constructor (cpu: Cpu, cgroups: FileCgroupManager, allocator: Installed, flags: Flags)
      requires cpu.Valid()
      ensures Valid() && this.cpu == cpu && this.cgroups == cgroups
      ensures this.allocator == allocator && this.flags == flags
      ensures Abs() == Sys(cpu.State(), [], [], cgroups.Abs())
    {
      this.cpu, this.cgroups, this.allocator, this.flags := cpu, cgroups, allocator, flags;
      workloads, lastResponse := [], [];
      addedCount, removedCount, rebalancedCount, errorCount := 0, 0, 0, 0;
    }

    /** The foreign allocators among those installed keep to the threads of the CPU. */
    ghost predicate OutsideOnCpu(shape: Shape, outside: Outside) {
      match allocator.Kind()
      case Single(basic) => basic.Foreign? ==> OnCpu(shape, outside.first)
      case Backed(primary, secondary, _) =>
        (primary.Foreign? ==> OnCpu(shape, outside.first)) && (secondary.Foreign? ==> OnCpu(shape, outside.second))
    }

    /** A call that has taken effect raises nevertheless: the new CPU cannot be reported, or the event log fails. */
    ghost predicate RaisesLate(before: Placement, out: Attempt, eventLogFails: bool)
      requires |cpu.shape| > 0
      reads `cpu
    {
      out.Answered? && (ReportRaises(cpu.shape, before, out.response.pl) || eventLogFails)
    }

    /**
      Either the whole call takes effect, or the allocator raised and nothing but the released containers has
      changed: the threads of the CPU held before the call are never written. A call that takes effect is counted as
      an error all the same, and returns false, exactly when the report that follows raises.
     */
    method Isolate(adds: seq<Workload>, removes: seq<Id>, outside: Outside, reachable: set<(Id, File)>,
                   eventLogFails: bool)
      returns (ok: bool, ghost out: Attempt)
      requires Valid() && OutsideOnCpu(cpu.shape, outside)
      modifies this, cgroups, allocator.Counters()
      ensures Valid() && cpu.shape == old(cpu.shape) && |cpu.shape| > 0
      ensures var ws := Requested(old(workloads), adds, removes);
              May(allocator.Kind(), cpu.shape, old(cpu.State()), ws, flags, outside, out)
      ensures ok == (out.Answered? && !RaisesLate(old(cpu.State()), out, eventLogFails))
      ensures Abs() == IsolateStep(old(Abs()), adds, removes, out, reachable)
      ensures out.Failed? ==> cpu == old(cpu)
      ensures out.Answered? ==>
                && cpu.State() == out.response.pl && lastResponse == out.response.allocs
                && workloads == Requested(old(workloads), adds, removes)
      ensures out.Failed? ==>
                && cpu.State() == old(cpu.State()) && lastResponse == old(lastResponse) && workloads == old(workloads)
                && cgroups.files == old(cgroups.files) && cgroups.jobs == old(cgroups.jobs)
                && cgroups.isolatedIds == old(cgroups.isolatedIds) - ToSet(removes)
      ensures errorCount == old(errorCount) + (if ok then 0 else 1)
      ensures addedCount == old(addedCount) + (if ok then |adds| else 0)
      ensures removedCount == old(removedCount) + (if ok then |removes| else 0)
      ensures rebalancedCount == old(rebalancedCount) + (if ok && adds == [] && removes == [] then 1 else 0)
    {
      hide May, IsolateStep, WellFormed, DistinctIds, OutsideOnCpu, RaisesLate, Cpu.Valid, Cpu.State;
      ghost var before := Abs();
      ok, out := TryIsolate(adds, removes, outside, reachable, eventLogFails);
      StepMeans(before, adds, removes, out, reachable);
      if !ok {
        errorCount := errorCount + 1;
        return;
      }
      addedCount, removedCount := addedCount + |adds|, removedCount + |removes|;
      if adds == [] && removes == [] {
        rebalancedCount := rebalancedCount + 1;
      }
    }

    /** `__isolate`. */
    method TryIsolate(adds: seq<Workload>, removes: seq<Id>, outside: Outside, reachable: set<(Id, File)>,
                      eventLogFails: bool)
      returns (ok: bool, ghost out: Attempt)
      requires Valid() && OutsideOnCpu(cpu.shape, outside)
      modifies this`cpu, this`workloads, this`lastResponse, cgroups, allocator.Counters()
      ensures Valid() && cpu.shape == old(cpu.shape) && |cpu.shape| > 0
      ensures var ws := Requested(old(workloads), adds, removes);
              May(allocator.Kind(), cpu.shape, old(cpu.State()), ws, flags, outside, out)
      ensures ok == (out.Answered? && !RaisesLate(old(cpu.State()), out, eventLogFails))
      ensures Abs() == IsolateStep(old(Abs()), adds, removes, out, reachable)
      ensures out.Failed? ==> cpu == old(cpu)
    {
      hide May, Apply, DistinctIds, Requested, ToSet, Cpu.Valid, Cpu.State, OutsideOnCpu, ReportRaises;
      cpu.ValidKeys();
      var request := BuildRequest(adds, removes);
      var response;
      response, out := Allocate(request, outside);
      ok := response.Some?;
      if ok {
        var reported := UpdateState(response.value, request.workloads, reachable);
        ok := reported && !eventLogFails;
      }
    }

    /** Copies of the CPU and of the map, the latter without the removes and with the adds. */
    method BuildRequest(adds: seq<Workload>, removes: seq<Id>) returns (request: AllocateRequest)
      requires Valid()
      modifies cgroups
      ensures cgroups.Abs() == Release(old(cgroups.Abs()), ToSet(removes))
      ensures fresh(request) && fresh(request.cpu) && fresh(request.cpu.objects) && request.cpu.Valid()
      ensures request.cpu.shape == cpu.shape && request.cpu.State() == cpu.State()
      ensures request.workloads == Requested(workloads, adds, removes) && DistinctIds(request.workloads)
    {
      hide WellFormed, PopAll, PutAll, DistinctIds;
      var copy := cpu.DeepCopy();
      var ws := ReleaseAndPop(removes);
      ws := PutEach(ws, adds);
      RequestedFacts(workloads, adds, removes);
      request := new AllocateRequest(copy, ws);
    }

    /** `__update_state`: write what changed, take over the CPU, the map and the response, then report a changed CPU. */
    method UpdateState(response: AllocateResponse, ws: seq<Workload>, reachable: set<(Id, File)>)
      returns (reported: bool)
      requires Valid() && response.cpu.Valid() && response.cpu.shape == cpu.shape && DistinctIds(ws)
      modifies this`cpu, this`workloads, this`lastResponse, cgroups
      ensures Valid() && cpu == response.cpu && |cpu.shape| > 0
      ensures Abs() == Sys(response.cpu.State(), ws, response.allocations,
                           Apply(old(cgroups.Abs()), old(lastResponse), response.allocations, reachable))
      ensures reported <==> !ReportRaises(cpu.shape, old(cpu.State()), response.cpu.State())
    {
      hide Apply, DistinctIds, ReportRaises, Cpu.Valid, Cpu.State, Abs;
      cpu.ValidKeys();
      var oldCpu := cpu.DeepCopy();
      TakeOver(response, ws, reachable);
      reported := ReportChange(oldCpu, response.cpu);
    }

    method TakeOver(response: AllocateResponse, ws: seq<Workload>, reachable: set<(Id, File)>)
      requires Valid() && response.cpu.Valid() && DistinctIds(ws)
      modifies this`cpu, this`workloads, this`lastResponse, cgroups
      ensures Valid() && cpu == response.cpu
      ensures Abs() == Sys(response.cpu.State(), ws, response.allocations,
                           Apply(old(cgroups.Abs()), old(lastResponse), response.allocations, reachable))
    {
      hide WellFormed, Apply, DistinctIds;
      ApplyIsolation(response.allocations, reachable);
      cpu, workloads, lastResponse := response.cpu, ws, response.allocations;
    }

    /** Only a CPU that differs is reported. */
    static method ReportChange(oldCpu: Cpu, newCpu: Cpu) returns (reported: bool)
      requires oldCpu.Valid() && newCpu.Valid() && oldCpu.shape == newCpu.shape
      ensures |newCpu.shape| > 0
      ensures reported <==> !ReportRaises(newCpu.shape, oldCpu.State(), newCpu.State())
    {
      hide CpuSeen, Drawable, Cpu.State, WellFormed, Threads;
      newCpu.ValidKeys();
      EqualIff(newCpu.shape, oldCpu.State(), newCpu.State());
      reported := true;
      if CpuSeen(oldCpu.shape, oldCpu.State()) != CpuSeen(newCpu.shape, newCpu.State()) {
        reported := ReportCpuState(oldCpu, newCpu);
      }
    }

    /** `__report_cpu_state`: both processors are drawn. */
    static method ReportCpuState(oldCpu: Cpu, newCpu: Cpu) returns (reported: bool)
      requires oldCpu.Valid() && newCpu.Valid()
      ensures |oldCpu.shape| > 0 && |newCpu.shape| > 0
      ensures reported <==> Drawable(oldCpu.shape, oldCpu.State()) && Drawable(newCpu.shape, newCpu.State())
    {
      hide Drawable, Cpu.Valid, Cpu.State;
      oldCpu.ValidKeys();
      newCpu.ValidKeys();
      reported := Visualize(oldCpu);
      if reported {
        reported := Visualize(newCpu);
      }
    }

    /** Each removed container is released, and its key leaves a copy of the map. */
    method ReleaseAndPop(removes: seq<Id>) returns (ws: seq<Workload>)
      modifies cgroups
      ensures ws == PopAll(workloads, removes)
      ensures cgroups.Abs() == Release(old(cgroups.Abs()), ToSet(removes))
    {
      ws := workloads;
      WholePrefix(removes);
      for i := 0 to |removes|
        invariant ws == PopAll(workloads, removes[..i])
        invariant cgroups.Abs() == Release(old(cgroups.Abs()), ToSet(removes[..i]))
      {
        PrefixSet(removes, i);
        assert removes[..i + 1][..i] == removes[..i];
        cgroups.ReleaseContainer(removes[i]);
        ws := Pop(ws, removes[i]);
      }
    }

    method PutEach(m: seq<Workload>, adds: seq<Workload>) returns (ws: seq<Workload>)
      ensures ws == PutAll(m, adds)
    {
      ws := m;
      WholePrefix(adds);
      for i := 0 to |adds|
        invariant ws == PutAll(m, adds[..i])
      {
        assert adds[..i + 1][..i] == adds[..i];
        ws := Put(ws, adds[i]);
      }
    }

    method Allocate(request: AllocateRequest, outside: Outside)
      returns (response: Option<AllocateResponse>, ghost out: Attempt)
      requires request.cpu.Valid() && OutsideOnCpu(request.cpu.shape, outside)
      modifies request.cpu.objects, allocator.Counters()
      ensures May(allocator.Kind(), request.cpu.shape, old(request.cpu.State()), request.workloads, flags, outside, out)
      ensures Reports(request.cpu, response, out)
      ensures response.Some? ==>
                response.value.cpu == request.cpu
                || (fresh(response.value.cpu) && fresh(response.value.cpu.objects))
    {
      hide BasicMay, WellFormed, OnCpu;
      match allocator
      case Alone(basic) =>
        response, out := Run(basic, request.cpu, request.workloads, flags, outside.first);
      case WithFallback(fallback) =>
        ghost var tried;
        response, tried, out := fallback.Isolate(request.cpu, request.workloads, flags, outside);
    }

    /** `__apply_isolation`: write what differs from the last response. */
    method ApplyIsolation(allocs: seq<Allocation>, reachable: set<(Id, File)>)
      modifies cgroups
      ensures cgroups.Abs() == Apply(old(cgroups.Abs()), lastResponse, allocs, reachable)
    {
      WholePrefix(allocs);
      for i := 0 to |allocs|
        invariant cgroups.Abs() == Apply(old(cgroups.Abs()), lastResponse, allocs[..i], reachable)
      {
        assert allocs[..i + 1][..i] == allocs[..i];
        if !Unchanged(lastResponse, allocs[i]) {
          UpdateContainer(allocs[i], reachable);
        }
      }
    }

    method UpdateContainer(a: Allocation, reachable: set<(Id, File)>)
      modifies cgroups
      ensures cgroups.Abs() == Update(old(cgroups.Abs()), a, reachable)
    {
      cgroups.SetCpuset(a.id, a.threadIds);
      cgroups.StartJob(Job(a.id, Quota, CpusetText.PrintNat(a.quota)));
      cgroups.StartJob(Job(a.id, Shares, CpusetText.PrintNat(a.shares)));
      SetNow(Job(a.id, MemoryMigrate, FlagText(a.flags.migrate)), reachable);
      SetNow(Job(a.id, MemorySpreadPage, FlagText(a.flags.spreadPage)), reachable);
      SetNow(Job(a.id, MemorySpreadSlab, FlagText(a.flags.spreadSlab)), reachable);
    }

    method SetNow(job: Job, reachable: set<(Id, File)>)
      modifies cgroups
      ensures cgroups.Abs() == WriteNow(old(cgroups.Abs()), job, reachable)
    {
      cgroups.Set(job, (job.id, job.file) in reachable);
    }
  }
}
