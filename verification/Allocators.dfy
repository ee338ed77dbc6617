/** What an allocator may do with a request: the two of this repository that decide by themselves, and any other. */
module Allocators {
  import opened Collections
  import opened Topology
  import opened GreedyPlacement
  import opened NaivePlacement
  import opened Allocations
  import opened Processor
  import GreedyAllocator
  import NaiveAllocator

  /** `AllocateResponse`: the claims the allocator wants, and an allocation for every workload it answers for. */
  datatype Response = Response(pl: Placement, allocs: seq<Allocation>)

  /** A response, or the claims left on the CPU of the request by a call that raised. */
  datatype Attempt = Answered(response: Response) | Failed(left: Placement)

  /** `Foreign`: an allocator of which nothing is known, such as the remote one. */
  datatype Basic = Greedy | Naive | Foreign

  /** `AllocateResponse(cpu, get_workload_allocations(cpu, workloads))`. */
  function Respond(shape: Shape, pl: Placement, ws: seq<Workload>, flags: Flags): Response {
    Response(pl, AllocationsOf(shape, pl, ws, flags))
  }

  /** What a call may come to; `foreign` is what the foreign allocator, if it is one, does with this request. */
  ghost predicate BasicMay(basic: Basic, shape: Shape, pl: Placement, ws: seq<Workload>, flags: Flags,
                           foreign: Attempt, out: Attempt) {
    match basic
    case Greedy =>
      (match GreedyIsolate(shape, pl, ws)
       case Placed(pl') => out == Answered(Respond(shape, pl', ws, flags))
       case Raised(left) => out == Failed(left))
    case Naive =>
      && out.Answered? && NaiveMay(pl, ws, out.response.pl)
      && out.response == Respond(shape, out.response.pl, ws, flags)
    case Foreign => out == foreign
  }

  /** The attempt keeps to the threads of the CPU. */
  ghost predicate OnCpu(shape: Shape, attempt: Attempt) {
    Covers(shape, if attempt.Answered? then attempt.response.pl else attempt.left)
  }

  // ---- responses that say what they claim ----

  /** No workload twice, every claimed workload answered for, and each answer lists what is claimed, once. */
  ghost predicate Lists(r: Response) {
    && DistinctAllocations(r.allocs)
    && (forall v :: v in WorkloadsOn(r.pl) ==> exists a :: a in r.allocs && a.id == v)
    && forall a :: a in r.allocs ==> NoDup(a.threadIds) && ToSet(a.threadIds) == HeldBy(r.pl, a.id)
  }

  /** A foreign allocator is only asked to keep to the CPU and to answer for what it claims. */
  ghost predicate Sound(basic: Basic, shape: Shape, foreign: Attempt) {
    basic.Foreign? ==> OnCpu(shape, foreign) && (foreign.Answered? ==> Lists(foreign.response))
  }

  lemma RespondLists(shape: Shape, pl: Placement, ws: seq<Workload>, flags: Flags)
    requires WellFormed(shape) && Covers(shape, pl) && DistinctIds(ws)
    requires forall v :: v !in Ids(ws) ==> HeldBy(pl, v) == {}
    ensures Lists(Respond(shape, pl, ws, flags))
  {
    hide WellFormed, Threads, AllocationsOf, HeldBy, WorkloadsOn;
    var allocs := AllocationsOf(shape, pl, ws, flags);
    AllocationIds(shape, pl, ws, flags);
    forall v | v in WorkloadsOn(pl) ensures exists a :: a in allocs && a.id == v {
      OnIffHeld(pl, v);
      var i :| 0 <= i < |ws| && ws[i].id == v;
      AllocatedIffHolding(shape, pl, ws, flags, AllocationFor(shape, pl, ws[i], flags));
      assert AllocationFor(shape, pl, ws[i], flags) in allocs;
    }
    forall a | a in allocs ensures NoDup(a.threadIds) && ToSet(a.threadIds) == HeldBy(pl, a.id) {
      AllocatedIffHolding(shape, pl, ws, flags, a);
      ThreadsOfFacts(shape, pl, a.id);
      ThreadsOfDistinct(shape, pl, a.id);
    }
  }

  lemma ThreadsOfDistinct(shape: Shape, pl: Placement, w: Id)
    requires WellFormed(shape)
    ensures NoDup(ThreadsOf(shape, pl, w))
  {
    KeepFacts(Threads(shape), HeldBy(pl, w));
  }

  lemma GreedyLeavesCovered(shape: Shape, pl: Placement, ws: seq<Workload>)
    requires WellFormed(shape) && Covers(shape, pl) && DistinctIds(ws)
    ensures Covers(shape, GreedyIsolate(shape, pl, ws).pl)
  {
    ClearedFacts(shape, pl);
    PlaceAllAccounted(shape, Cleared(pl), ws);
  }

  /** Whatever they come to, the allocators keep to the CPU and answer for exactly what they claim. */
  lemma BasicServes(basic: Basic, shape: Shape, pl: Placement, ws: seq<Workload>, flags: Flags,
                    foreign: Attempt, out: Attempt)
    requires WellFormed(shape) && Covers(shape, pl) && DistinctIds(ws) && Sound(basic, shape, foreign)
    requires BasicMay(basic, shape, pl, ws, flags, foreign, out)
    ensures OnCpu(shape, out) && (out.Answered? ==> Lists(out.response))
  {
    hide WellFormed, Lists, GreedyIsolate, NaiveMay, AllocationsOf, DistinctIds, HeldBy;
    match basic
    case Greedy =>
      GreedyLeavesCovered(shape, pl, ws);
      if out.Answered? {
        GreedyExact(shape, pl, ws);
        RespondLists(shape, out.response.pl, ws, flags);
      }
    case Naive =>
      NaiveStep(pl, ws, out.response.pl);
      RespondLists(shape, out.response.pl, ws, flags);
    case Foreign =>
  }

  // ---- the calls ----

  datatype AllocateResponse = AllocateResponse(cpu: Cpu, allocations: seq<Allocation>)

  /** The response, or the CPU of the request where there is none, is what the attempt says. */
  ghost predicate Reports(cpu: Cpu, response: Option<AllocateResponse>, out: Attempt)
    requires cpu.Valid()
    reads cpu.objects, if response.Some? then response.value.cpu.objects else {}
  {
    match response
    case None => out == Failed(cpu.State())
    case Some(r) =>
      r.cpu.Valid() && r.cpu.shape == cpu.shape && out == Answered(Response(r.cpu.State(), r.allocations))
  }

  /** `isolate` of the allocator; a response carries the CPU of the request or a new one. */
  method Run(basic: Basic, cpu: Cpu, ws: seq<Workload>, flags: Flags, foreign: Attempt)
    returns (response: Option<AllocateResponse>, ghost out: Attempt)
    requires cpu.Valid() && (basic.Foreign? ==> OnCpu(cpu.shape, foreign))
    modifies cpu.objects
    ensures BasicMay(basic, cpu.shape, old(cpu.State()), ws, flags, foreign, out)
    ensures Reports(cpu, response, out)
    ensures response.Some? ==>
              response.value.cpu == cpu || (fresh(response.value.cpu) && fresh(response.value.cpu.objects))
  {
    hide WellFormed, GreedyIsolate, NaiveMay, AllocationsOf, Threads;
    match basic {
      case Greedy =>
        var ok := GreedyAllocator.Isolate(cpu, ws);
        if !ok {
          return None, Failed(cpu.State());
        }
      case Naive =>
        NaiveAllocator.Isolate(cpu, ws);
      case Foreign =>
        out := foreign;
        match foreign {
          case Failed(left) =>
            cpu.Overwrite(left);
            response := None;
          case Answered(r) =>
            var answered := new Cpu(cpu.shape, r.pl);
            response := Some(AllocateResponse(answered, r.allocs));
        }
        return;
    }
    response := Some(AllocateResponse(cpu, AllocationsOf(cpu.shape, cpu.State(), ws, flags)));
    out := Answered(Respond(cpu.shape, cpu.State(), ws, flags));
  }
}
