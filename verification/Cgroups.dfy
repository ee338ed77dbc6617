/**
  The cgroup files of the containers and the writes still under way. Cpuset, quota and shares are written by
  threads of their own, the memory settings on the spot; any write that succeeds marks its container isolated.
 */
module Cgroups {
  import opened Collections
  import opened Topology
  import opened Allocations
  import opened CpusetText

  datatype File = Cpuset | Quota | Shares | MemoryMigrate | MemorySpreadPage | MemorySpreadSlab

  /** A write: started and not yet finished while it is in the job list. */
  datatype Job = Job(id: Id, file: File, text: string)

  datatype Cgroups = Cgroups(
    jobs: seq<Job>, files: map<(Id, File), string>, isolated: set<Id>, writes: nat, fails: nat)

  const EMPTY := Cgroups([], map[], {}, 0, 0)

  /** `__set`: a failed write only counts. */
  function Write(cg: Cgroups, job: Job, ok: bool): Cgroups {
    if ok then cg.(files := cg.files[(job.id, job.file) := job.text],
                   isolated := cg.isolated + {job.id}, writes := cg.writes + 1)
    else cg.(fails := cg.fails + 1)
  }

  function Start(cg: Cgroups, job: Job): Cgroups { cg.(jobs := cg.jobs + [job]) }

  /** The thread of job `i` runs to its end. */
  function Finish(cg: Cgroups, i: nat, ok: bool): Cgroups
    requires i < |cg.jobs|
  {
    Write(cg.(jobs := cg.jobs[..i] + cg.jobs[i + 1..]), cg.jobs[i], ok)
  }

  /** All the threads run to their ends, in the order they were started, and succeed. */
  function FinishAll(cg: Cgroups): Cgroups
    decreases |cg.jobs|
  {
    if cg.jobs == [] then cg else FinishAll(Finish(cg, 0, true))
  }

  function Release(cg: Cgroups, ids: set<Id>): Cgroups { cg.(isolated := cg.isolated - ids) }

  function FlagText(on: bool): string { if on then "1" else "0" }

  /** The six writes of one changed allocation; `reachable` says which files can be written now. */
  function Update(cg: Cgroups, a: Allocation, reachable: set<(Id, File)>): Cgroups {
    var cg1 := Start(cg, Job(a.id, Cpuset, PrintList(a.threadIds)));
    var cg2 := Start(cg1, Job(a.id, Quota, PrintNat(a.quota)));
    var cg3 := Start(cg2, Job(a.id, Shares, PrintNat(a.shares)));
    var cg4 := WriteNow(cg3, Job(a.id, MemoryMigrate, FlagText(a.flags.migrate)), reachable);
    var cg5 := WriteNow(cg4, Job(a.id, MemorySpreadPage, FlagText(a.flags.spreadPage)), reachable);
    WriteNow(cg5, Job(a.id, MemorySpreadSlab, FlagText(a.flags.spreadSlab)), reachable)
  }

  /** A write on the spot. */
  function WriteNow(cg: Cgroups, job: Job, reachable: set<(Id, File)>): Cgroups {
    Write(cg, job, (job.id, job.file) in reachable)
  }

  /** The last response as the dictionary the manager builds of it. */
  function LastFor(last: seq<Allocation>, id: Id): Option<Allocation> {
    if last == [] then None else
    if last[|last| - 1].id == id then Some(last[|last| - 1]) else LastFor(last[..|last| - 1], id)
  }

  /** The write cache: an allocation equal to the last one is skipped. */
  predicate Unchanged(last: seq<Allocation>, a: Allocation) {
    LastFor(last, a.id).Some? && Same(a, LastFor(last, a.id).value)
  }

  function Apply(cg: Cgroups, last: seq<Allocation>, allocs: seq<Allocation>, reachable: set<(Id, File)>): Cgroups {
    if allocs == [] then cg else
      var n := |allocs| - 1;
      var before := Apply(cg, last, allocs[..n], reachable);
      if Unchanged(last, allocs[n]) then before else Update(before, allocs[n], reachable)
  }

  /** `get_cpuset`: an unreadable file counts as empty, an unparsable one raises. */
  function CpusetOf(cg: Cgroups, id: Id): Result<seq<nat>> {
    if (id, Cpuset) in cg.files then ParseCpuset(cg.files[(id, Cpuset)]) else Success([])
  }

  class FileCgroupManager {
    var jobs: seq<Job>
    var files: map<(Id, File), string>
    var isolatedIds: set<Id>
    var writeCount: nat
    var failCount: nat

    ghost function Abs(): Cgroups
      reads this
    {
      Cgroups(jobs, files, isolatedIds, writeCount, failCount)
    }

    constructor ()
      ensures Abs() == EMPTY
    {
      jobs, files, isolatedIds, writeCount, failCount := [], map[], {}, 0, 0;
    }

    method StartJob(job: Job)
      modifies this
      ensures Abs() == Start(old(Abs()), job)
      ensures jobs == old(jobs) + [job] && files == old(files) && isolatedIds == old(isolatedIds)
    {
      jobs := jobs + [job];
    }

    method Set(job: Job, ok: bool)
      modifies this
      ensures Abs() == Write(old(Abs()), job, ok)
      ensures files == (if ok then old(files)[(job.id, job.file) := job.text] else old(files))
      ensures isolatedIds == old(isolatedIds) + (if ok then {job.id} else {})
      ensures writeCount == old(writeCount) + (if ok then 1 else 0)
      ensures failCount == old(failCount) + (if ok then 0 else 1)
    {
      if ok {
        files := files[(job.id, job.file) := job.text];
        isolatedIds := isolatedIds + {job.id};
        writeCount := writeCount + 1;
      } else {
        failCount := failCount + 1;
      }
    }

    method FinishJob(i: nat, ok: bool)
      requires i < |jobs|
      modifies this
      ensures Abs() == Finish(old(Abs()), i, ok)
      ensures jobs == old(jobs[..i] + jobs[i + 1..])
      ensures var job := old(jobs[i]);
              files == if ok then old(files)[(job.id, job.file) := job.text] else old(files)
      ensures isolatedIds == old(isolatedIds) + (if ok then {old(jobs[i]).id} else {})
    {
      var job := jobs[i];
      jobs := jobs[..i] + jobs[i + 1..];
      Set(job, ok);
    }

    method ReleaseContainer(id: Id)
      modifies this
      ensures Abs() == Release(old(Abs()), {id})
      ensures isolatedIds == old(isolatedIds) - {id} && files == old(files) && jobs == old(jobs)
    {
      isolatedIds := isolatedIds - {id};
    }

    method SetCpuset(id: Id, ids: seq<nat>)
      modifies this
      ensures Abs() == Start(old(Abs()), Job(id, Cpuset, PrintList(ids)))
    {
      StartJob(Job(id, Cpuset, PrintList(ids)));
    }

    method GetCpuset(id: Id) returns (r: Result<seq<nat>>)
      ensures r == CpusetOf(Abs(), id)
    {
      if (id, Cpuset) in files {
        r := ParseCpuset(files[(id, Cpuset)]);
      } else {
        r := Success([]);
      }
    }

    predicate HasPendingWork()
      reads this
    {
      jobs != []
    }
  }
}
