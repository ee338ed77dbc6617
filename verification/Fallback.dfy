/**
  A primary allocator backed by a secondary one. Both work on the CPU of the same request, so the secondary starts
  from whatever the primary had claimed, freed or cleared when it raised.
 */
module Fallback {
  import opened Collections
  import opened Topology
  import opened GreedyPlacement
  import opened NaivePlacement
  import opened Allocations
  import opened Allocators
  import opened Processor

  /** An allocator by itself, or one backed by another until the event queue is `depth` deep. */
  datatype Allocator = Single(basic: Basic) | Backed(primary: Basic, secondary: Basic, depth: nat)

  /** What a call finds outside: what foreign allocators do with the request, and the queue of the event manager. */
  datatype Outside = Outside(first: Attempt, second: Attempt, queueDepth: Option<nat>)

  /** `__should_fallback_immediately`: there is an event manager and its queue is too deep. */
  predicate TooDeep(depth: nat, outside: Outside) {
    outside.queueDepth.Some? && outside.queueDepth.value >= depth
  }

  /** The primary came to `tried` and the call to `out`; a deep event queue skips the primary. */
  ghost predicate FallbackTook(primary: Basic, secondary: Basic, skipped: bool, shape: Shape, pl: Placement,
                               ws: seq<Workload>, flags: Flags, outside: Outside, tried: Attempt, out: Attempt) {
    if skipped then BasicMay(secondary, shape, pl, ws, flags, outside.second, out) else
      && BasicMay(primary, shape, pl, ws, flags, outside.first, tried)
      && if tried.Answered? then out == tried
         else BasicMay(secondary, shape, tried.left, ws, flags, outside.second, out)
  }

  /** What a call of an allocator may come to. */
  ghost predicate May(allocator: Allocator, shape: Shape, pl: Placement, ws: seq<Workload>, flags: Flags,
                      outside: Outside, out: Attempt) {
    match allocator
    case Single(basic) => BasicMay(basic, shape, pl, ws, flags, outside.first, out)
    case Backed(primary, secondary, depth) =>
      exists tried ::
        FallbackTook(primary, secondary, TooDeep(depth, outside), shape, pl, ws, flags, outside, tried, out)
  }

  class FallbackAllocator {
    const primary: Basic
    const secondary: Basic
    const fallbackQueueDepth: nat
    var primaryCalls: nat
    var secondaryCalls: nat
    var queueDepthFallbacks: nat

    constructor (primary: Basic, secondary: Basic, fallbackQueueDepth: nat)
      ensures this.primary == primary && this.secondary == secondary && this.fallbackQueueDepth == fallbackQueueDepth
      ensures primaryCalls == 0 && secondaryCalls == 0 && queueDepthFallbacks == 0
    {
      this.primary, this.secondary, this.fallbackQueueDepth := primary, secondary, fallbackQueueDepth;
      primaryCalls, secondaryCalls, queueDepthFallbacks := 0, 0, 0;
    }

    /** The secondary takes over wherever the primary stopped; only if it raises too does the call raise. */
    method Isolate(cpu: Cpu, ws: seq<Workload>, flags: Flags, outside: Outside)
      returns (response: Option<AllocateResponse>, ghost tried: Attempt, ghost out: Attempt)
      requires cpu.Valid()
      requires (primary.Foreign? ==> OnCpu(cpu.shape, outside.first))
            && (secondary.Foreign? ==> OnCpu(cpu.shape, outside.second))
      modifies this, cpu.objects
      ensures Reports(cpu, response, out)
      ensures response.Some? ==>
                response.value.cpu == cpu || (fresh(response.value.cpu) && fresh(response.value.cpu.objects))
      ensures var skipped := TooDeep(fallbackQueueDepth, outside);
              && FallbackTook(primary, secondary, skipped, cpu.shape, old(cpu.State()), ws, flags, outside, tried, out)
              && primaryCalls == old(primaryCalls) + 1
              && secondaryCalls == old(secondaryCalls) + (if skipped || tried.Failed? then 1 else 0)
              && queueDepthFallbacks == old(queueDepthFallbacks) + (if skipped then 1 else 0)
      ensures match outside.queueDepth
              case Some(n) =>
                && (n < fallbackQueueDepth ==> queueDepthFallbacks == old(queueDepthFallbacks))
                && (n >= fallbackQueueDepth ==>
                      && queueDepthFallbacks == old(queueDepthFallbacks) + 1
                      && secondaryCalls == old(secondaryCalls) + 1)
              case None => queueDepthFallbacks == old(queueDepthFallbacks)
    {
      hide BasicMay, OnCpu, Cpu.Valid, Cpu.State;
      primaryCalls := primaryCalls + 1;
      if TooDeep(fallbackQueueDepth, outside) {
        queueDepthFallbacks := queueDepthFallbacks + 1;
        tried := Failed(map[]);
      } else {
        response, tried := Run(primary, cpu, ws, flags, outside.first);
        if response.Some? {
          out := tried;
          return;
        }
      }
      secondaryCalls := secondaryCalls + 1;
      response, out := Run(secondary, cpu, ws, flags, outside.second);
    }
  }

  /**
    Which allocator decides, for any two of them. Without an event manager, or with fewer events queued than the
    configured depth, it is the primary, and the secondary only from what a primary that raised has left; with that
    many events or more it is the secondary, from the CPU as it was.
   */
  lemma WhoDecides(primary: Basic, secondary: Basic, depth: nat, shape: Shape, pl: Placement, ws: seq<Workload>,
                   flags: Flags, outside: Outside, out: Attempt)
    requires May(Backed(primary, secondary, depth), shape, pl, ws, flags, outside, out)
    ensures (outside.queueDepth == None || outside.queueDepth.value < depth) ==>
              exists tried :: BasicMay(primary, shape, pl, ws, flags, outside.first, tried) &&
                match tried
                case Answered(_) => out == tried
                case Failed(left) => BasicMay(secondary, shape, left, ws, flags, outside.second, out)
    ensures outside.queueDepth.Some? && outside.queueDepth.value >= depth ==>
              BasicMay(secondary, shape, pl, ws, flags, outside.second, out)
  {
    hide BasicMay;
  }

  /** So with a foreign primary that answers, what it answers is the answer, unless the queue is as deep as that. */
  lemma ForeignDecides(secondary: Basic, depth: nat, shape: Shape, pl: Placement, ws: seq<Workload>, flags: Flags,
                       outside: Outside, out: Attempt)
    requires May(Backed(Foreign, secondary, depth), shape, pl, ws, flags, outside, out)
    requires outside.first.Answered? && (outside.queueDepth == None || outside.queueDepth.value < depth)
    ensures out == outside.first
  {
    hide BasicMay;
    WhoDecides(Foreign, secondary, depth, shape, pl, ws, flags, outside, out);
    var tried :| BasicMay(Foreign, shape, pl, ws, flags, outside.first, tried) &&
      match tried
      case Answered(_) => out == tried
      case Failed(left) => BasicMay(secondary, shape, left, ws, flags, outside.second, out);
    ForeignIs(shape, pl, ws, flags, outside.first, tried);
  }

  lemma ForeignIs(shape: Shape, pl: Placement, ws: seq<Workload>, flags: Flags, foreign: Attempt, out: Attempt)
    requires BasicMay(Foreign, shape, pl, ws, flags, foreign, out)
    ensures out == foreign
  {
  }

  /** What is asked of the foreign allocators among those of `allocator`. */
  ghost predicate OutsideSound(allocator: Allocator, shape: Shape, outside: Outside) {
    match allocator
    case Single(basic) => Sound(basic, shape, outside.first)
    case Backed(primary, secondary, _) =>
      Sound(primary, shape, outside.first) && Sound(secondary, shape, outside.second)
  }

  /** Every allocator keeps to the CPU and answers for exactly what it claims, if the foreign ones do. */
  lemma {:induction false} AllocatorsServe(allocator: Allocator, shape: Shape, pl: Placement, ws: seq<Workload>,
                                           flags: Flags, outside: Outside, out: Attempt)
    requires WellFormed(shape) && Covers(shape, pl) && DistinctIds(ws) && OutsideSound(allocator, shape, outside)
    requires May(allocator, shape, pl, ws, flags, outside, out)
    ensures OnCpu(shape, out) && (out.Answered? ==> Lists(out.response))
  {
    hide WellFormed, BasicMay, Sound, Lists, DistinctIds;
    match allocator
    case Single(basic) => BasicServes(basic, shape, pl, ws, flags, outside.first, out);
    case Backed(primary, secondary, depth) =>
      var skipped := TooDeep(depth, outside);
      var tried :| FallbackTook(primary, secondary, skipped, shape, pl, ws, flags, outside, tried, out);
      var found := if skipped || tried.Answered? then pl else tried.left;
      if !skipped { BasicServes(primary, shape, pl, ws, flags, outside.first, tried); }
      if skipped || tried.Failed? { BasicServes(secondary, shape, found, ws, flags, outside.second, out); }
  }

  /** Backed by the naive allocator, every call is answered, whatever its primary does. */
  lemma NaiveAlwaysAnswers(primary: Basic, depth: nat, shape: Shape, pl: Placement, ws: seq<Workload>, flags: Flags,
                           outside: Outside, out: Attempt)
    requires May(Backed(primary, Naive, depth), shape, pl, ws, flags, outside, out)
    ensures out.Answered?
  {
    hide NaiveMay, GreedyIsolate, AllocationsOf;
  }

  /**
    Totality: wherever the primary stopped, the naive secondary answers every request. No unrequested workload
    remains, each requested one with a positive count holds between one thread and all of them and has an
    allocation, and it holds exactly what it asked for, or every thread, if and only if the primary left it none or
    just that.
   */
  lemma FallbackTotal(shape: Shape, left: Placement, ws: seq<Workload>, flags: Flags, foreign: Attempt, out: Attempt)
    requires WellFormed(shape) && Covers(shape, left) && DistinctIds(ws)
    requires BasicMay(Naive, shape, left, ws, flags, foreign, out)
    ensures out.Answered?
    ensures forall v :: v !in Ids(ws) ==> HeldBy(out.response.pl, v) == {}
    ensures forall w :: w in ws && w.count > 0 ==>
              && 1 <= |HeldBy(out.response.pl, w.id)| <= |Threads(shape)|
              && AllocationFor(shape, out.response.pl, w, flags) in out.response.allocs
    ensures forall w :: w in ws ==>
              (|HeldBy(out.response.pl, w.id)| == Min(w.count, |Threads(shape)|) <==>
               HeldBy(left, w.id) == {} || |HeldBy(left, w.id)| == Min(w.count, |Threads(shape)|))
  {
    hide AllocationsOf, NaiveMay, DistinctIds;
    var pl' := out.response.pl;
    NaiveStep(left, ws, pl');
    CoversCard(shape, left);
    AtLeastOneThread(shape);
    forall w | w in ws && w.count > 0
      ensures 1 <= |HeldBy(pl', w.id)| <= |Threads(shape)|
      ensures AllocationFor(shape, pl', w, flags) in out.response.allocs
    {
      SubsetCard(HeldBy(pl', w.id), pl'.Keys);
      assert HeldBy(left, w.id) != {} ==> |HeldBy(left, w.id)| > 0;
      AllocatedIffHolding(shape, pl', ws, flags, AllocationFor(shape, pl', w, flags));
    }
  }

  lemma AtLeastOneThread(shape: Shape)
    requires WellFormed(shape)
    ensures |Threads(shape)| >= 1
  {
    var t := shape[0].cores[0].threads[0];
    assert shape[0].CoreThreads()[0] == shape[0].cores[0].threads;
    FlattenMember(shape[0].CoreThreads(), 0, t);
    assert PackageThreads(shape)[0] == shape[0].Threads();
    FlattenMember(PackageThreads(shape), 0, t);
  }

  /** What greedy backed by naive comes to where the demand overflows and the queue is not too deep. */
  lemma OverflowFallsBack(shape: Shape, pl: Placement, ws: seq<Workload>, flags: Flags, depth: nat, outside: Outside,
                          out: Attempt)
    requires WellFormed(shape) && Covers(shape, pl) && DistinctIds(ws) && Total(ws) > |Threads(shape)|
    requires !TooDeep(depth, outside) && May(Backed(Greedy, Naive, depth), shape, pl, ws, flags, outside, out)
    ensures out.Answered? && NaiveMay(GreedyIsolate(shape, pl, ws).pl, ws, out.response.pl)
    ensures out.response == Respond(shape, out.response.pl, ws, flags)
  {
    hide WellFormed, GreedyIsolate, NaiveMay, DistinctIds, AllocationsOf, Total, HeldBy, ClaimedSet, Ids;
    GreedyExact(shape, pl, ws);
  }

  /**
    Greedy backed by naive, when the demand overflows at workload `i`: the earlier workloads keep what they asked
    for, the overflowing one is stuck with the remainder that greedy gave it, short of its count, unless there was
    no remainder, and the later ones are served by sharing threads.
   */
  lemma GreedyThenNaive(shape: Shape, pl: Placement, ws: seq<Workload>, flags: Flags, depth: nat, outside: Outside,
                        i: nat, out: Attempt)
    requires WellFormed(shape) && Covers(shape, pl) && DistinctIds(ws) && i < |ws|
    requires Total(ws[..i]) <= |Threads(shape)| < Total(ws[..i]) + ws[i].count
    requires !TooDeep(depth, outside) && May(Backed(Greedy, Naive, depth), shape, pl, ws, flags, outside, out)
    ensures out.Answered?
    ensures forall j :: 0 <= j < i ==> |HeldBy(out.response.pl, ws[j].id)| == ws[j].count
    ensures var n, used := |Threads(shape)|, Total(ws[..i]);
            |HeldBy(out.response.pl, ws[i].id)| == if used < n then n - used else Min(ws[i].count, n)
    ensures forall j :: i < j < |ws| ==> |HeldBy(out.response.pl, ws[j].id)| == Min(ws[j].count, |Threads(shape)|)
  {
    hide NaiveMay, WellFormed, DistinctIds, HeldBy, GreedyIsolate, Total, Covers, May, Respond;
    GreedyOverflow(shape, pl, ws, i);
    GreedyExact(shape, pl, ws);
    OverflowFallsBack(shape, pl, ws, flags, depth, outside, out);
    var left, pl' := GreedyIsolate(shape, pl, ws).pl, out.response.pl;
    NaiveStep(left, ws, pl');
    CoversCard(shape, left);
    forall j | 0 <= j < |ws|
      ensures |HeldBy(pl', ws[j].id)| == if HeldBy(left, ws[j].id) != {} then |HeldBy(left, ws[j].id)|
                                         else Min(ws[j].count, |Threads(shape)|)
    {
      assert ws[j] in ws;
    }
    PrefixFits(ws, i, |Threads(shape)|);
    assert |HeldBy(left, ws[i].id)| == 0 <==> HeldBy(left, ws[i].id) == {};
    forall j | 0 <= j < i ensures |HeldBy(pl', ws[j].id)| == ws[j].count {
      assert |HeldBy(left, ws[j].id)| == ws[j].count;
    }
  }

  lemma {:induction false} PrefixFits(ws: seq<Workload>, i: nat, n: nat)
    requires i <= |ws| && Total(ws[..i]) <= n
    ensures forall j :: 0 <= j < i ==> ws[j].count <= n
    decreases i
  {
    if i > 0 {
      assert ws[..i][..i - 1] == ws[..i - 1];
      PrefixFits(ws, i - 1, n - ws[i - 1].count);
    }
  }
}
