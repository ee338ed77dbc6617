/** The reconciler: it compares every claimed workload's cpuset file with the CPU and exits on a difference. */
module Reconciling {
  import opened Collections
  import opened Topology
  import opened CpusetText
  import opened Allocations
  import opened Allocators
  import opened Cgroups
  import opened Manager
  import opened Coherence
  import opened Quiescence
  import opened Processor
  import opened Views

  const RECONCILIATION_FAILURE_EXIT := 4

  /**
    `Finished`: every claimed workload was compared, and `failed` are those that differ; `Exited`: the process ended
    at the first one that differs; `Crashed`: the text of a cpuset file did not parse.
   */
  datatype Verdict = Skipped | Finished(failed: set<Id>) | Exited(code: nat) | Crashed

  ghost function Differing(shape: Shape, pl: Placement, cg: Cgroups): set<Id> {
    set v | v in WorkloadsOn(pl) && !Agrees(shape, pl, cg, v)
  }

  /** What a reconciliation of this state may come to; `exitReturns` of a handler that does not end the process. */
  ghost predicate MayReconcile(shape: Shape, pl: Placement, cg: Cgroups, exitReturns: bool, verdict: Verdict) {
    if cg.jobs != [] then verdict == Skipped else
      match verdict
      case Skipped => false
      case Finished(failed) =>
        && failed == Differing(shape, pl, cg) && (failed == {} || exitReturns)
        && forall v :: v in WorkloadsOn(pl) ==> CpusetOf(cg, v).Success?
      case Exited(code) =>
        && !exitReturns && code == RECONCILIATION_FAILURE_EXIT
        && exists v :: v in Differing(shape, pl, cg) && CpusetOf(cg, v).Success?
      case Crashed => exists v :: v in WorkloadsOn(pl) && CpusetOf(cg, v).Failure?
  }

  class Reconciler {
    const cgroups: FileCgroupManager
    const exitReturns: bool
    var skipCount: nat
    var successCount: nat

    constructor (cgroups: FileCgroupManager, exitReturns: bool)
      ensures this.cgroups == cgroups && this.exitReturns == exitReturns && skipCount == 0 && successCount == 0
    {
      this.cgroups, this.exitReturns := cgroups, exitReturns;
      skipCount, successCount := 0, 0;
    }

    /** `get_workloads`: the same inversion of the placement as `get_workload_ids_to_thread_ids`. */
    static method GetWorkloads(cpu: Cpu) returns (workloads: map<Id, seq<nat>>)
      requires cpu.Valid()
      ensures workloads == Inverted(Threads(cpu.shape), cpu.State()) && workloads.Keys == WorkloadsOn(cpu.State())
    {
      hide WellFormed, Threads, Inverted, Appended, ToSet;
      cpu.ValidKeys();
      workloads := map[];
      var ts := Threads(cpu.shape);
      InvertedNone(cpu.State());
      for i := 0 to |ts|
        invariant workloads == Inverted(ts[..i], cpu.State())
      {
        PrefixSet(ts, i);
        workloads := AppendTo(workloads, cpu.threads[ts[i]].workloadIds, ts[i]);
        InvertedStep(ts, i, cpu.State());
      }
      WholePrefix(ts);
      AllIds(ts, cpu.State());
      InvertedKeys(ts, cpu.State());
    }

    /** A reconciliation that finishes counts as a success, even where a handler that returned was called. */
    method Reconcile(cpu: Cpu) returns (verdict: Verdict)
      requires cpu.Valid()
      modifies this
      ensures MayReconcile(cpu.shape, cpu.State(), cgroups.Abs(), exitReturns, verdict)
      ensures verdict.Skipped? <==> cgroups.jobs != []
      ensures skipCount == old(skipCount) + (if verdict.Skipped? then 1 else 0)
      ensures successCount == old(successCount) + (if verdict.Finished? then 1 else 0)
    {
      hide MayReconcile, WellFormed;
      SkippedIfPending(cpu.shape, cpu.State(), cgroups.Abs(), exitReturns);
      if cgroups.HasPendingWork() {
        skipCount := skipCount + 1;
        return Skipped;
      }
      verdict := Compare(cpu);
      if verdict.Finished? {
        successCount := successCount + 1;
      }
    }

    /** Every claimed workload's file against its threads; a difference calls the exit handler. */
    method Compare(cpu: Cpu) returns (verdict: Verdict)
      requires cpu.Valid() && cgroups.jobs == []
      ensures MayReconcile(cpu.shape, cpu.State(), cgroups.Abs(), exitReturns, verdict) && !verdict.Skipped?
    {
      hide MayReconcile, Compared, Inverted, WorkloadsOn, Sort, CpusetOf, ThreadsOf, Threads, Cpu.Valid, Cpu.State,
           ParseCpuset, WellFormed, Differing, Agrees;
      ghost var shape, pl, cg := cpu.shape, cpu.State(), cgroups.Abs();
      var workloads := GetWorkloads(cpu);
      var todo := workloads.Keys;
      var failed: set<Id> := {};
      NothingCompared(shape, pl, cg, exitReturns);
      while todo != {}
        invariant todo <= workloads.Keys && Compared(shape, pl, cg, exitReturns, todo, failed)
        decreases |todo|
      {
        var w :| w in todo;
        InvertedAt(shape, pl, w);
        var cpuset := cgroups.GetCpuset(w);
        if cpuset.Failure? {
          Verdicts(shape, pl, cg, exitReturns, w);
          return Crashed;
        }
        OneMoreCompared(shape, pl, cg, exitReturns, todo, failed, w);
        if Sort(cpuset.value) != Sort(workloads[w]) {
          if !exitReturns {
            Verdicts(shape, pl, cg, exitReturns, w);
            return Exited(RECONCILIATION_FAILURE_EXIT);
          }
          failed := failed + {w};
        }
        todo := todo - {w};
      }
      AllCompared(shape, pl, cg, exitReturns, failed);
      verdict := Finished(failed);
    }
  }

  /** How far the comparison has come: of all but `todo`, `failed` differ, and the handler has returned for them. */
  ghost predicate Compared(shape: Shape, pl: Placement, cg: Cgroups, exitReturns: bool, todo: set<Id>,
                           failed: set<Id>) {
    && failed == Differing(shape, pl, cg) - todo && (failed == {} || exitReturns)
    && forall v :: v in WorkloadsOn(pl) - todo ==> CpusetOf(cg, v).Success?
  }

  lemma NothingCompared(shape: Shape, pl: Placement, cg: Cgroups, exitReturns: bool)
    ensures Compared(shape, pl, cg, exitReturns, WorkloadsOn(pl), {})
  {
  }

  lemma OneMoreCompared(shape: Shape, pl: Placement, cg: Cgroups, exitReturns: bool, todo: set<Id>, failed: set<Id>,
                        w: Id)
    requires Compared(shape, pl, cg, exitReturns, todo, failed)
    requires w in todo && w in WorkloadsOn(pl) && CpusetOf(cg, w).Success?
    ensures if Sort(CpusetOf(cg, w).value) == Sort(ThreadsOf(shape, pl, w))
            then Compared(shape, pl, cg, exitReturns, todo - {w}, failed)
            else exitReturns ==> Compared(shape, pl, cg, exitReturns, todo - {w}, failed + {w})
  {
    hide Sort, CpusetOf, ThreadsOf, WorkloadsOn;
  }

  /** What the file of one claimed workload decides. */
  lemma Verdicts(shape: Shape, pl: Placement, cg: Cgroups, exitReturns: bool, w: Id)
    requires w in WorkloadsOn(pl) && cg.jobs == []
    ensures CpusetOf(cg, w).Failure? ==> MayReconcile(shape, pl, cg, exitReturns, Crashed)
    ensures CpusetOf(cg, w).Success? && Sort(CpusetOf(cg, w).value) != Sort(ThreadsOf(shape, pl, w)) && !exitReturns ==>
              MayReconcile(shape, pl, cg, exitReturns, Exited(RECONCILIATION_FAILURE_EXIT))
  {
  }

  lemma AllCompared(shape: Shape, pl: Placement, cg: Cgroups, exitReturns: bool, failed: set<Id>)
    requires Compared(shape, pl, cg, exitReturns, {}, failed) && cg.jobs == []
    ensures MayReconcile(shape, pl, cg, exitReturns, Finished(failed))
  {
  }

  /** The file reads back as every thread that carries the workload, once, and as no other; a missing one as none. */
  ghost predicate FileAgrees(pl: Placement, cg: Cgroups, v: Id) {
    && FileParses(cg, v)
    && forall t :: multiset(FileThreads(cg, v))[t] == if t in pl && v in pl[t] then 1 else 0
  }

  ghost predicate FileParses(cg: Cgroups, v: Id) {
    (v, Cpuset) in cg.files ==> ParseCpuset(cg.files[(v, Cpuset)]).Success?
  }

  ghost function FileThreads(cg: Cgroups, v: Id): seq<nat>
    requires FileParses(cg, v)
  {
    if (v, Cpuset) in cg.files then ParseCpuset(cg.files[(v, Cpuset)]).value else []
  }

  /** Comparing sorted lists compares how often each thread occurs. */
  lemma AgreesIff(shape: Shape, pl: Placement, cg: Cgroups, v: Id)
    requires WellFormed(shape) && Covers(shape, pl)
    ensures CpusetOf(cg, v).Success? <==> FileParses(cg, v)
    ensures Agrees(shape, pl, cg, v) <==> FileAgrees(pl, cg, v)
  {
    hide WellFormed, Sort, ParseCpuset, ThreadsOf;
    if FileParses(cg, v) {
      var ids, held := FileThreads(cg, v), ThreadsOf(shape, pl, v);
      SortedAlike(ids, held);
      ThreadsOfFacts(shape, pl, v);
      ThreadsOfDistinct(shape, pl, v);
      forall t ensures multiset(held)[t] == if t in pl && v in pl[t] then 1 else 0 {
        OnceAtMost(held, t);
        assert t in ToSet(held) <==> t in HeldBy(pl, v);
      }
      if FileAgrees(pl, cg, v) {
        assert multiset(ids) == multiset(held) by {
          forall t ensures multiset(ids)[t] == multiset(held)[t] {
          }
        }
      }
    }
  }

  /**
    What a reconciliation with no write under way comes to when every claimed workload's file parses: with every file
    agreeing nothing is reported, else the process ends with code 4, or a handler that returns has heard of exactly
    the workloads whose file differs.
   */
  lemma ReportsExactly(shape: Shape, pl: Placement, cg: Cgroups, exitReturns: bool, verdict: Verdict)
    requires WellFormed(shape) && Covers(shape, pl) && cg.jobs == []
    requires forall t, v :: t in pl && v in pl[t] ==> FileParses(cg, v)
    requires MayReconcile(shape, pl, cg, exitReturns, verdict)
    ensures var agreeing := forall t, v :: t in pl && v in pl[t] ==> FileAgrees(pl, cg, v);
            && (verdict == Finished({}) <==> agreeing)
            && (verdict == Exited(4) <==> !agreeing && !exitReturns)
            && (verdict.Finished? <==> agreeing || exitReturns)
    ensures verdict.Finished? ==>
              forall v :: v in verdict.failed <==> v in WorkloadsOn(pl) && !FileAgrees(pl, cg, v)
  {
    hide WellFormed, Agrees, FileAgrees, FileParses, CpusetOf, Covers;
    forall v ensures (CpusetOf(cg, v).Success? <==> FileParses(cg, v))
                     && (Agrees(shape, pl, cg, v) <==> FileAgrees(pl, cg, v))
    {
      AgreesIff(shape, pl, cg, v);
    }
    forall v | v in Differing(shape, pl, cg) ensures exists t :: t in pl && v in pl[t] && !FileAgrees(pl, cg, v) {
      var t :| t in pl && v in pl[t];
    }
    forall t, v | t in pl && v in pl[t] && !FileAgrees(pl, cg, v) ensures v in Differing(shape, pl, cg) {
    }
  }

  /** It raises only over a file that does not parse, and where there is one it does not finish. */
  lemma RaisesOnlyUnparsed(shape: Shape, pl: Placement, cg: Cgroups, exitReturns: bool, verdict: Verdict)
    requires WellFormed(shape) && Covers(shape, pl) && cg.jobs == []
    requires MayReconcile(shape, pl, cg, exitReturns, verdict)
    ensures verdict.Crashed? ==> exists v :: v in WorkloadsOn(pl) && !FileParses(cg, v)
    ensures (exists v :: v in WorkloadsOn(pl) && !FileParses(cg, v)) ==>
              verdict.Crashed? || (verdict == Exited(4) && !exitReturns)
  {
    hide WellFormed, Agrees, FileParses, CpusetOf, Covers, WorkloadsOn;
    forall v ensures CpusetOf(cg, v).Success? <==> FileParses(cg, v) {
      AgreesIff(shape, pl, cg, v);
    }
  }

  lemma SkippedIfPending(shape: Shape, pl: Placement, cg: Cgroups, exitReturns: bool)
    ensures cg.jobs != [] ==> MayReconcile(shape, pl, cg, exitReturns, Skipped)
  {
  }

  lemma InvertedAt(shape: Shape, pl: Placement, w: Id)
    requires w in Inverted(Threads(shape), pl)
    ensures Inverted(Threads(shape), pl)[w] == ThreadsOf(shape, pl, w)
  {
  }

  /**
    The assumption about dying containers is needed: if the files of a claimed one go while the last response still
    answers for it, the next reconciliation ends the process, or, with a handler that returns, reports just it.
   */
  lemma GoneExits(c: Setting, states: seq<Sys>, steps: seq<Step>, i: nat, id: Id, exitReturns: bool, verdict: Verdict)
    requires IsRun(c, states, steps) && c.file == Cpuset && i < |states| && states[i].cg.jobs == []
    requires id in WorkloadsOn(states[i].pl)
    requires MayReconcile(c.shape, states[i].pl, Removed(states[i].cg, id), exitReturns, verdict)
    ensures verdict == if exitReturns then Finished({id}) else Exited(RECONCILIATION_FAILURE_EXIT)
  {
    hide IsRun, Agrees, Inv, WellFormed;
    var s := states[i];
    CoherentWhenQuiet(c, states, steps, i);
    RunCovers(c, states, steps, i);
    GoneDiffers(c.shape, s.pl, s.cg, id);
    forall v | v in WorkloadsOn(s.pl)
      ensures CpusetOf(Removed(s.cg, id), v).Success? && (Agrees(c.shape, s.pl, Removed(s.cg, id), v) <==> v != id)
    {
      if v != id { OthersAgree(c.shape, s.pl, s.cg, id, v); }
    }
    assert Differing(c.shape, s.pl, Removed(s.cg, id)) == {id};
  }

  lemma GoneDiffers(shape: Shape, pl: Placement, cg: Cgroups, id: Id)
    requires WellFormed(shape) && Covers(shape, pl) && id in WorkloadsOn(pl)
    ensures CpusetOf(Removed(cg, id), id) == Success([]) && !Agrees(shape, pl, Removed(cg, id), id)
  {
    OnIffHeld(pl, id);
    ThreadsOfFacts(shape, pl, id);
    SortsToNothing([]);
    SortsToNothing(ThreadsOf(shape, pl, id));
  }

  lemma OthersAgree(shape: Shape, pl: Placement, cg: Cgroups, id: Id, v: Id)
    requires v != id && Agrees(shape, pl, cg, v)
    ensures Agrees(shape, pl, Removed(cg, id), v) && CpusetOf(Removed(cg, id), v).Success?
  {
    assert CpusetOf(Removed(cg, id), v) == CpusetOf(cg, v);
  }

  /**
    In no run, whatever the allocator, does a reconciliation find a difference: it is skipped while writes are under
    way, else it finishes with nothing to report.
   */
  lemma NeverExits(c: Setting, states: seq<Sys>, steps: seq<Step>, i: nat, exitReturns: bool, verdict: Verdict)
    requires IsRun(c, states, steps) && c.file == Cpuset && i < |states|
    requires MayReconcile(c.shape, states[i].pl, states[i].cg, exitReturns, verdict)
    ensures verdict == if states[i].cg.jobs == [] then Finished({}) else Skipped
  {
    hide IsRun, Agrees;
    if states[i].cg.jobs == [] {
      CoherentWhenQuiet(c, states, steps, i);
      assert Differing(c.shape, states[i].pl, states[i].cg) == {};
      assert forall v :: v in WorkloadsOn(states[i].pl) ==> CpusetOf(states[i].cg, v).Success? by {
        AgreesParse(c.shape, states[i].pl, states[i].cg);
      }
    }
  }

  lemma AgreesParse(shape: Shape, pl: Placement, cg: Cgroups)
    ensures forall v :: Agrees(shape, pl, cg, v) ==> CpusetOf(cg, v).Success?
  {
  }
}
