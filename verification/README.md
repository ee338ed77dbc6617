# titus-isolate in Dafny

titus-isolate decides which hyper-threads each container may run on, and keeps that decision consistent with the
kernel's cgroups while containers start and die. This project models the parts that carry the weight of that
promise and proves what they guarantee.

**Processor and allocators.** A processor is a tree of packages, cores and threads (`Topology`, `Processor`); every
thread carries a set of workload ids. Specifications see it as a *placement*, a map from thread id to workload ids.
- The greedy allocator clears the CPU and fills the emptiest core of the emptiest package, in a loop inside a
  recursion (`GreedyAllocator`). `Bins` proves once what draining the largest bin first is worth; `GreedySpec` shows
  that the code does so at both levels; `GreedyPlacement` and `Violations` draw the conclusions.
- The naive allocator keeps every workload where it is and shares threads if it must (`NaiveAllocator`). Since it
  shuffles, it is specified as a relation (`NaivePlacement`); `NaiveSharing` says exactly when threads get shared.
- `Allocators` puts these two beside any foreign allocator, such as the remote one, of which only what it does to the
  CPU and what it answers is known. The fallback allocator runs one of the three and then another on whatever the
  first left of the shared request (`Fallback`); this is what the program installs.

**Manager, cgroups, reconciler.** `Manager` is the workload manager, whose last response is a write cache over the
cgroup files (`WriteCache` says which writes it issues); `Cgroups` has the files, the writes still under way and the
isolated ids; `Reconciling` compares files and CPU and exits on a difference; `Reporting` is the drawing of a changed
CPU, which may raise. `Coherence` is the state machine of all of them: a call, the end of any write, the kernel showing
a file in its own format, or the end of a container; `Quiescence` is what its files then tell, `RemoteFiles` the same
for answers of the remote allocator. `Rebalancing` says when a second call changes nothing, `ManagerRuns` which
workloads count as isolated, `CpusetText` has the text of the files character by character.

**Events.** `EventQueue` is the queue between many producers and one consumer, as interleaved steps; `EventManagers`
is the consumer's loop, every statement of which is such a step; `BatchHandling` has the handler and the workload map
after one call per batch and one call per event, `InsertionOrder` their insertion orders, and `SequencedCalls` compares
the two as calls of the manager, whatever the allocator comes to.

**Arithmetic and codecs.** `Numbering` has the thread ids of a host and their natural positions, `RemoteLayout` the
layout that goes to the remote allocator and the answer that comes back, `Detection` and `Metrics` the figures that
are reported, `Views`, `Allocations`, `WorkloadMap` and `CpuEquality` what the rest reads and compares.

Objects that the source updates in place are classes, loops are loops, and each method is proved against a function
or relation on values, about which the theorems are then proved.

## Assumptions

- Thread ids are unique on a processor, package ids are unique, core ids are unique within a package
  (`Topology.WellFormed`). `Numbering.NumberedWellFormed` proves this of every processor the program builds itself.
- The keys of the workload map are the task ids, as set at `titus_isolate/isolate/workload_manager.py:92`.
- Thread counts are natural numbers. `titus_isolate/model/legacy_workload.py:14-15` enforces this; the workloads the
  manager is given take their count unchecked from the pod (`titus_isolate/model/kubernetes_workload.py:22`), so that
  pods request no negative CPU is an assumption.
- A foreign allocator leaves the tree of the CPU as it is. Coherence asks further that its responses answer for
  exactly what they claim (`Allocators.Lists`): no workload twice, every claimed one, no thread repeated. Greedy and
  naive responses do (`Allocators.BasicServes`), and decoded ones do if and only if no answer repeats a position
  (`RemoteLayout.GrpcRemoteIsolationAllocator.DecodedListsIff`).
- Configuration flags do not change during a run, and the event manager's metrics registry is set.
- The isolate lock makes each call one step. `random.shuffle` is any permutation.
- In coherence runs writes to the file in question succeed while the last response answers for the container, and no
  container is given one while an earlier one is under way; writes to the other five files may fail. Writes may end in
  any order, and the cgroup files may hold anything at the start.
- A container's files vanish only once the last response no longer answers for it. The code does not ensure this: a
  reconciliation between the death of a container and its die event exits (`Reconciling.GoneExits`).

## Where the code and its promises part

- A changed workload may count as isolated before its cpuset is written: the comment at
  `titus_isolate/isolate/workload_manager.py:157-158` relies on setting the cpuset first, but that write runs on its
  own thread while the memory settings are written on the spot. Right after the call it counts as isolated exactly
  if one of these could be written, or if it was isolated before and not removed
  (`ManagerRuns.IsolatedBeforeCpuset`); later, exactly if any write of its own succeeds
  (`ManagerRuns.IsolatedByAnyWrite`).
- A workload that dies and starts again in one call loses its isolated mark if its allocation has not changed: the
  release takes effect and the write that would restore it is skipped (`ManagerRuns.RestartLosesIsolation`; the exact
  condition is `ManagerRuns.IsolatedUnlessSkipped`).
- A container that dies after it has started in the same batch stays in the workload map (`SequencedCalls.StartThenDie`).
  If the allocator answers all the calls, this is the only way in which the workloads differ from those after one call
  per event (`SequencedCalls.SameWorkloadsIff`); the exact condition for the insertion order is
  `SequencedCalls.SameMapInTurnIff`.
- If a single call would raise, the batch may leave other workloads although no id is both started and died
  (`SequencedCalls.SingleCallRaises`); the exact condition for any outcomes is `SequencedCalls.SameAnywayIff`. With a naive
  secondary no call raises (`SequencedCalls.NaiveBackedRefines`).
- A call that has taken effect may return false and count as an error: where a package holds an odd number of threads
  and its last one is or was claimed, the drawing of the changed CPU raises (`Reporting.UniformDrawableIff`).
- The naive allocator may share a thread although the counts fit, when a workload comes back with a smaller count
  (`NaiveSharing.ShrinkingShares`; the exact condition is `NaiveSharing.NeverSharesIff`).
- When the greedy allocator overflows under the fallback allocator, the workload at which it overflowed keeps the
  remainder it was given and stays short of its count, since the naive allocator leaves it alone
  (`Fallback.GreedyThenNaive`).
- With greedy backed by naive, a rebalance may move workloads that share threads after an overflow; exactly when it
  cannot is `Rebalancing.FallbackRepeatsIff`. So may a queue that is deep at one call only (`Rebalancing.DepthMoves`,
  `Rebalancing.SkippedThenNotIff`).
- The text written for an empty thread list does not parse (`CpusetText.ListRoundTrip`). The greedy and the naive
  allocator never have it written, since they give a workload without threads no allocation
  (`Allocations.AllocatedIffHolding`). A remote answer without positions does have it written
  (`titus_isolate/allocate/remote/allocator.py:113-123`); the reconciler does not read it, since it looks at claimed
  workloads only, so `Reconciling.NeverExits` covers these answers too.
- A remote answer that repeats a position is written as it is, and its file then differs from the CPU
  (`Quiescence.WrittenAgreesIff`).
- With an exit handler that returns, a reconciliation that found differences still counts as a success
  (`Reconciling.Reconciler.Reconcile`).

## Model

| member | source | states |
|---|---|---|
| Bins.FewestBins | titus_isolate/allocate/greedy_cpu_allocator.py:27-55 | whoever drains the largest bin first touches no more bins than any other choice of as many members; used for packages and again for cores |
| Bins.SpansIffNoBinFits | titus_isolate/allocate/greedy_cpu_allocator.py:37-55 | such a drain touches more than one bin if and only if no single bin holds the whole request |
| Bins.AtMostOneLeftOpen | titus_isolate/allocate/greedy_cpu_allocator.py:39-48 | of any two bins it touches, one has been emptied |
| Bins.Largest | titus_isolate/model/processor/utils.py:19-29 | the scan for the emptiest core or package finds the first index of a maximum |
| Processor.Cpu.EmptiestPackage | titus_isolate/model/processor/cpu.py:21-32 | the loop returns the first package with the most empty threads |
| Processor.Cpu.EmptiestCore | titus_isolate/model/processor/utils.py:19-29 | the loop returns the first core of the package with the most empty threads |
| GreedySpec.EmptiestCoreHasRoom | titus_isolate/allocate/greedy_cpu_allocator.py:39-41 | while the package has an empty thread its emptiest core has one, so every round of the loop claims something |
| GreedySpec.EmptiestPackageHasRoom | titus_isolate/allocate/greedy_cpu_allocator.py:34-37 | while the CPU is not full its emptiest package has an empty thread, so the recursion gets strictly smaller |
| GreedySpec.TakeFromPackageDrains | titus_isolate/allocate/greedy_cpu_allocator.py:39-48 | inside one package the claimed threads are distinct, number the request or all that is empty, and drain the cores emptiest first |
| GreedySpec.TakeDrains | titus_isolate/allocate/greedy_cpu_allocator.py:27-55 | over the CPU likewise: distinct, as many as asked or as there are, draining the packages emptiest first and inside every package its cores emptiest first |
| GreedySpec.TakesInOrder | titus_isolate/allocate/greedy_cpu_allocator.py:39-41 | of the empty threads of a core, those claimed come before those left |
| GreedyAllocator.FillPackage | titus_isolate/allocate/greedy_cpu_allocator.py:39-48 | the loop claims exactly the threads of that drain, for this workload, and changes no other claim |
| GreedyAllocator.AssignThreads | titus_isolate/allocate/greedy_cpu_allocator.py:27-55 | loop and recursion together claim exactly those threads; it raises if and only if they fall short of the count, leaving the partial claim behind |
| GreedyAllocator.Isolate | titus_isolate/allocate/greedy_cpu_allocator.py:11-22 | clears the CPU, places the workloads in dictionary order and stops at the first that does not fit; the state left is stated for success and for the exception |
| GreedyPlacement.PlaceFacts | titus_isolate/allocate/greedy_cpu_allocator.py:27-55 | placing one workload succeeds if and only if it asks for no more than is empty; what it claims was empty, is greedily chosen, and nobody else's threads move |
| GreedyPlacement.FewestPackages | titus_isolate/allocate/greedy_cpu_allocator.py:37-55 | optimality: no choice of as many empty threads touches fewer packages than the placed workload does |
| GreedyPlacement.FewestCores | titus_isolate/allocate/greedy_cpu_allocator.py:39-48 | optimality inside every package: no choice of as many of its empty threads touches fewer of its cores |
| GreedyPlacement.SpansIffNoPackageFits | titus_isolate/allocate/greedy_cpu_allocator.py:37-55 | one placement touches several packages if and only if every package had fewer empty threads than were asked for |
| GreedyPlacement.GreedyExact | titus_isolate/allocate/greedy_cpu_allocator.py:11-55 | a call succeeds if and only if the counts sum to at most the number of threads; then everybody holds exactly its count, nobody else is on the CPU, no thread is shared and the used threads add up to the sum |
| GreedyPlacement.GreedyOverflow | titus_isolate/allocate/greedy_cpu_allocator.py:11-35 | where the demand first overflows: the workloads before are complete, that one has what was left, the ones after have nothing |
| Violations.OneOpenCore | titus_isolate/allocate/greedy_cpu_allocator.py:39-48 | a placement leaves at most one of the cores it touches with an empty thread |
| Violations.UnsettledStep | titus_isolate/allocate/greedy_cpu_allocator.py:27-55 | a placement adds at most one core that is shared or may still become so |
| Violations.GreedySharedCores | titus_isolate/isolate/detect.py:41-50 | after placing W workloads at most W - 1 cores are reported as shared |
| Violations.SpanningFills | titus_isolate/allocate/greedy_cpu_allocator.py:37-55 | a placement over several packages fills all of them but one |
| Violations.CrossStep | titus_isolate/allocate/greedy_cpu_allocator.py:27-55 | the workloads over several packages never outnumber the full packages |
| Violations.GreedyCrossPackage | titus_isolate/isolate/detect.py:16-24 | after placing on P packages at most P - 1 workloads are reported as spread |
| Violations.GreedySpansIff | titus_isolate/isolate/detect.py:16-24 | after a successful call a workload is reported as spread if and only if it asked for more than any package had empty at the moment it was placed |
| Processor.Thread.Claim | titus_isolate/model/processor/thread.py:17-20 | a claim adds the workload once and keeps the others |
| Processor.Thread.Free | titus_isolate/model/processor/thread.py:22-25 | frees one workload and keeps the others, present or not |
| Processor.Cpu.Clear | titus_isolate/model/processor/cpu.py:46-48 | no thread carries a workload any more |
| Processor.Cpu.constructor | titus_isolate/model/processor/cpu.py:12-16 | a well-formed tree with exactly the given claims, on fresh thread objects |
| Processor.Cpu.DeepCopy | titus_isolate/isolate/workload_manager.py:205-206 | the copy carries the same claims on threads of its own |
| Processor.Cpu.ClaimThreads | titus_isolate/allocate/greedy_cpu_allocator.py:43-46 | the listed threads gain the workload and nothing else changes |
| CpuEquality.EqualIff | titus_isolate/model/processor/cpu.py:114-117 | two processors of one shape compare equal if and only if every thread carries the same workloads on both |
| CpuEquality.EqualAnywhereIff | titus_isolate/model/processor/cpu.py:114-117 | processors of any two trees are equal if and only if each has every thread of the other, with the same workloads, under the same core and package ids |
| Topology.ThreadGeometry | titus_isolate/model/processor/package.py:20-21 | unique thread ids make the packages' thread lists free of repetition and pairwise disjoint |
| NaiveAllocator.Shuffle | titus_isolate/allocate/naive_cpu_allocator.py:45 | any permutation |
| NaiveAllocator.AssignThreads | titus_isolate/allocate/naive_cpu_allocator.py:40-53 | only empty threads, as many as asked for, if there are enough; otherwise every empty one, and as many in all as asked for or as there are |
| NaiveAllocator.FreeUnrequested | titus_isolate/allocate/naive_cpu_allocator.py:17-23 | exactly the claims of unrequested workloads are gone |
| NaiveAllocator.Isolate | titus_isolate/allocate/naive_cpu_allocator.py:14-38 | every result, whatever the shuffles do, is one of the placements the relation allows |
| NaivePlacement.NaiveStep | titus_isolate/allocate/naive_cpu_allocator.py:14-38 | one call: nothing unrequested remains, a workload already there keeps exactly its threads, a new one gets min(count, N) |
| NaivePlacement.NaiveUsesEmptyFirst | titus_isolate/allocate/naive_cpu_allocator.py:40-53 | after a call exactly as many empty threads are gone as the workloads that held nothing asked for, or all of them; as long as one is left no claimed thread has been given to a newcomer, and each newly used thread carries one workload |
| NaivePlacement.NaiveRebalance | titus_isolate/allocate/naive_cpu_allocator.py:25-33 | a second call with the same request changes nothing, whatever the shuffles do |
| NaivePlacement.NaiveSticks | titus_isolate/allocate/naive_cpu_allocator.py:25-33 | over whole runs from an empty CPU: from add to removal a workload with an unchanged count keeps one fixed set of min(count, N) threads |
| NaiveSharing.SharesNothingIff | titus_isolate/allocate/naive_cpu_allocator.py:40-53 | from any CPU, one call leaves no thread shared if and only if the requested workloads share none already and what they hold and what the new ones ask for adds up to at most N |
| NaiveSharing.HoldsAsRequested | titus_isolate/allocate/naive_cpu_allocator.py:25-33 | how many threads a workload holds after any call of a run follows from the requests alone |
| NaiveSharing.NeverSharesIff | titus_isolate/allocate/naive_cpu_allocator.py:14-53 | over whole runs from an empty CPU, no thread is ever shared if and only if a sum computed from the requests alone is at most N at every call |
| NaiveSharing.NaiveNeverShares | titus_isolate/allocate/naive_cpu_allocator.py:14-53 | so if the counts sum to at most N at every call and nobody asks for less while held, no thread is ever shared and nobody holds more than its count |
| NaiveSharing.ShrinkingShares | titus_isolate/allocate/naive_cpu_allocator.py:28-33 | fitting counts alone do not suffice: a concrete run in which a workload comes back with a smaller count, keeps all it holds, and a thread is shared |
| Allocators.Run | titus_isolate/allocate/cpu_allocator.py:10-12 | the greedy, the naive or a foreign allocator: the response or the exception, with the claims left on the request's CPU; a response carries that CPU or a new one |
| Allocators.RespondLists | titus_isolate/allocate/allocate_response.py:53-55 | the responses of this repository's allocators list what every claimed workload holds, once, and nobody twice |
| Allocators.BasicServes | titus_isolate/allocate/greedy_cpu_allocator.py:11-22 | whatever it comes to, an allocator keeps to the CPU and answers for exactly what it claims; of a foreign one this is assumed |
| Fallback.FallbackAllocator.Isolate | titus_isolate/allocate/fall_back_cpu_allocator.py:45-58 | the secondary, whichever it is, starts from what the primary left on the shared CPU; the call raises only if both do; the primary is skipped, and a queue-depth fallback counted, exactly when there is a queue depth of at least the limit, and every call and every turn to the secondary is counted |
| Fallback.WhoDecides | titus_isolate/allocate/fall_back_cpu_allocator.py:107-117 | for any two allocators: without a queue depth, or with one below the limit, the primary's answer if it answers and else the secondary's from what it left; from the limit on, the secondary's from the untouched CPU |
| Fallback.ForeignDecides | titus_isolate/allocate/fall_back_cpu_allocator.py:45-49 | so what a foreign primary answers below the limit is the answer |
| Fallback.AllocatorsServe | titus_isolate/allocate/fall_back_cpu_allocator.py:45-57 | so does any allocator backed by any other, queue-depth skip included |
| Fallback.NaiveAlwaysAnswers | titus_isolate/allocate/fall_back_cpu_allocator.py:50-57 | backed by the naive allocator no call raises, whatever the primary does |
| Fallback.FallbackTotal | titus_isolate/allocate/fall_back_cpu_allocator.py:45-57 | wherever the primary stopped, no unrequested id remains, each workload with a positive count holds between 1 and N threads and has an allocation, and it holds min(count, N) if and only if the primary left it none or that many |
| Fallback.GreedyThenNaive | titus_isolate/allocate/fall_back_cpu_allocator.py:49-57 | with the greedy allocator as primary and an overflowing demand, who ends up with how many threads |
| Views.WorkloadIdsToThreadIds | titus_isolate/model/processor/cpu.py:50-56 | every claimed workload, each with exactly its threads in natural order |
| Views.InvertedStep | titus_isolate/model/processor/cpu.py:52-55 | visiting one more thread extends the inversion by its claims |
| Reconciling.Reconciler.GetWorkloads | titus_isolate/isolate/reconciler.py:53-63 | the reconciler's own loop yields the same inversion |
| Allocations.ThreadsOfFacts | titus_isolate/isolate/update.py:1-2 | the listed threads are exactly those holding the workload |
| Allocations.ThreadsInOrder | titus_isolate/isolate/update.py:1-2 | in natural order |
| Allocations.AllocatedIffHolding | titus_isolate/allocate/allocate_response.py:53-55 | exactly the requested workloads that hold a thread are answered for |
| Allocations.AllocationIds | titus_isolate/allocate/allocate_response.py:53-55 | no workload is answered for twice and nobody unrequested is |
| Allocations.AllocationsInOrder | titus_isolate/allocate/allocate_response.py:53-55 | the answers come in the order of the request |
| Allocations.SameMeansSameList | titus_isolate/allocate/workload_allocate_response.py:71-81 | answers read from a CPU that compare equal list the same threads in the same order |
| Allocations.SameMeansSameThreads | titus_isolate/allocate/workload_allocate_response.py:71-81 | any two answers that compare equal, decoded ones included, hold the same threads equally often, unless one repeats a thread |
| Metrics.OversubscribedThreadCount | titus_isolate/isolate/metrics_utils.py:13-20 | the loop counts one claim too many for each further workload on a thread |
| Metrics.DoubleCounting | titus_isolate/isolate/metrics_utils.py:5-20 | allocated plus oversubscribed is the sum of the workloads' thread counts, and allocated plus unallocated is N |
| WorkloadMap.RequestedFacts | titus_isolate/isolate/workload_manager.py:84-92 | removes then adds: the keys stay distinct and are the old ones less the removed plus the added |
| WorkloadMap.PopFacts | titus_isolate/isolate/workload_manager.py:88 | popping removes that key only, and nothing if it is absent |
| WorkloadMap.PopAt | titus_isolate/isolate/workload_manager.py:88 | the popped key leaves its place and the others keep their order |
| WorkloadMap.PutFacts | titus_isolate/isolate/workload_manager.py:91-92 | assignment replaces that key in its place or appends it, the others keep theirs |
| WorkloadMap.PopPutAllCommute | titus_isolate/isolate/workload_manager.py:87-92 | a removal commutes with additions of other ids, insertion order included |
| Cgroups.FileCgroupManager.StartJob | titus_isolate/cgroup/file_cgroup_manager.py:85-90 | one more write under way, nothing written yet |
| Cgroups.FileCgroupManager.Set | titus_isolate/cgroup/file_cgroup_manager.py:111-139 | a write that succeeds stores the text, isolates the container and counts; one that fails only counts |
| Cgroups.FileCgroupManager.FinishJob | titus_isolate/cgroup/file_cgroup_manager.py:81-94 | any of the writes under way may end; it then leaves the list and has its effect |
| Cgroups.FileCgroupManager.ReleaseContainer | titus_isolate/cgroup/file_cgroup_manager.py:67-68 | only that id is no longer isolated |
| Cgroups.FileCgroupManager.GetCpuset | titus_isolate/cgroup/file_cgroup_manager.py:30-35 | an unreadable file counts as empty, an unparsable one raises |
| Manager.AllocateRequest.constructor | titus_isolate/allocate/allocate_request.py:13-19 | the request owns a deep copy of the CPU, so no allocator can reach the manager's threads |
| Manager.WorkloadManager.Isolate | titus_isolate/isolate/workload_manager.py:52-79 | for any allocator alone or with a fallback: either the whole call takes effect, or the allocator raised and CPU, workload map and last response are untouched and only the removed ids are released; a call that took effect still returns false and counts as an error exactly when the report of the changed CPU or the event log raises |
| Manager.WorkloadManager.TryIsolate | titus_isolate/isolate/workload_manager.py:81-101 | the same for the inner call, the late exceptions included |
| Manager.WorkloadManager.BuildRequest | titus_isolate/isolate/workload_manager.py:82-98 | copies of CPU and map, the map less the removes plus the adds, the removed containers released |
| Manager.WorkloadManager.ApplyIsolation | titus_isolate/isolate/workload_manager.py:132-164 | exactly the allocations that differ from the last response are written, in order |
| Manager.WorkloadManager.UpdateState | titus_isolate/isolate/workload_manager.py:115-130 | CPU, map and response, as the allocator gave it, are taken over after the writes have been issued; only then is a CPU that differs reported, which may raise |
| WriteCache.SkippedIff | titus_isolate/allocate/workload_allocate_response.py:71-81 | an allocation is skipped if and only if the last response holds the same id, quota, shares and memory settings with the same threads, in any order |
| WriteCache.IssuesExactly | titus_isolate/isolate/workload_manager.py:132-164 | the writes started by a response: for every allocation that is not skipped, in order, the cpuset, the quota and the shares; the three memory settings of each have been tried |
| WriteCache.NoWriteIff | titus_isolate/isolate/workload_manager.py:132-139 | a response leaves the cgroup manager as it is if and only if every allocation repeats one of the last response, in whatever order it lists the threads |
| Reporting.Visualize | titus_isolate/model/processor/utils.py:101-143 | the nested loops draw a processor unless some claimed thread has no place in its package's two rows |
| Reporting.DrawableMeans | titus_isolate/model/processor/utils.py:113-137 | a place means: among the first twice half the average number of threads to a package, rounded down twice |
| Reporting.UniformDrawableIff | titus_isolate/model/processor/utils.py:117-137 | with packages of equal size, it raises if and only if that size is odd and the last thread of some package is claimed |
| Reporting.NumberedDrawableIff | titus_isolate/model/processor/config.py:26-50 | for the processors the program builds: if and only if C T is odd and the last thread of some package is claimed |
| Reporting.SingleThreadRaises | titus_isolate/isolate/workload_manager.py:121-126 | on a processor with one thread, the first workload placed is enough |
| Rebalancing.BasicRepeats | titus_isolate/allocate/greedy_cpu_allocator.py:11-22 | asked again with the same request on its own result, greedy and naive give the same placement |
| Rebalancing.FallbackRepeatsIff | titus_isolate/allocate/fall_back_cpu_allocator.py:45-57 | greedy backed by naive always does so if and only if every workload that finds the CPU taken up by those before it asks for nothing or for every thread; in particular when the demand fits |
| Rebalancing.SkippedThenNotIff | titus_isolate/allocate/fall_back_cpu_allocator.py:107-117 | if the queue depth skips greedy at the first call and not at the second, the naive answer stays if and only if the unskipped fallback might have given it and would repeat it |
| Rebalancing.NaiveThenGreedyIff | titus_isolate/allocate/fall_back_cpu_allocator.py:107-117 | naive first and then greedy because the queue has grown: it stays if and only if the demand fits and the answer was greedy's already |
| Rebalancing.DepthMoves | titus_isolate/allocate/fall_back_cpu_allocator.py:107-117 | an input at which a changed queue depth moves a workload |
| Rebalancing.AllocatorRepeats | titus_isolate/allocate/fall_back_cpu_allocator.py:45-57 | in all other cases decided by the repository's allocators the second call repeats the first, a changed queue depth included |
| Rebalancing.SameResponse | titus_isolate/isolate/workload_manager.py:132-139 | the same response again issues no write |
| Rebalancing.RebalanceIsFixpointIff | titus_isolate/isolate/workload_manager.py:115-139 | for any allocator, foreign ones included: a rebalance right after a successful call leaves the whole state as it is, cgroup manager included, if and only if it raises or gives the same response |
| Rebalancing.RebalanceIsFixpoint | titus_isolate/isolate/workload_manager.py:115-139 | so it does whenever the second call repeats the first as above |
| ManagerRuns.FinishAllIsolates | titus_isolate/cgroup/file_cgroup_manager.py:111-139 | once every write has ended well, exactly the ids written for have joined the isolated ones |
| ManagerRuns.ApplyIsolates | titus_isolate/isolate/workload_manager.py:132-164 | which ids a call isolates at once and for which it starts writes |
| ManagerRuns.OwnAnswersRequested | titus_isolate/allocate/allocate_response.py:53-55 | the allocators of this repository answer for requested workloads only, and for none twice |
| ManagerRuns.IsolatedAreHeld | titus_isolate/cgroup/file_cgroup_manager.py:67-72 | with synchronous writes the isolated ids stay a subset of the held workloads, if answers are for requested ones only |
| ManagerRuns.IsolatedUnlessSkipped | titus_isolate/isolate/workload_manager.py:86-92 | a successful call keeps every answered workload isolated if and only if no removed id comes back with an unchanged allocation |
| ManagerRuns.IsolatedWithoutRestarts | titus_isolate/isolate/workload_manager.py:86-92 | in particular when no id is both added and removed |
| ManagerRuns.RunIsolation | titus_isolate/isolate/workload_manager.py:81-123 | over whole runs: isolated ids are held, and they cover the last response as long as calls succeed and restart nobody |
| ManagerRuns.RestartLosesIsolation | titus_isolate/isolate/workload_manager.py:86-88 | from a fresh manager: a workload is added and isolated, dies and starts in the next call, and ends up running and not isolated |
| ManagerRuns.IsolatedBeforeCpuset | titus_isolate/isolate/workload_manager.py:157-164 | right after a call a changed workload's cpuset write is still under way, and it counts as isolated if and only if a memory setting of it could be written or it was isolated before and not removed |
| ManagerRuns.IsolatedByAnyWrite | titus_isolate/cgroup/file_cgroup_manager.py:111-139 | and while that write is under way a workload becomes isolated if and only if any other write of its own succeeds |
| ManagerRuns.IsolatedTooSoon | titus_isolate/isolate/workload_manager.py:157-164 | from a fresh manager: one workload is added and counts as isolated before its cpuset has ever been written |
| Coherence.UpdateCoherent | titus_isolate/isolate/workload_manager.py:157-164 | after an update whatever is being written to a file of the container, or was written on the spot, is its new allocation |
| Quiescence.FilesTell | titus_isolate/isolate/workload_manager.py:132-164 | at every quiescent point of every run, whatever the allocator, each of the six files of a workload of the last response tells its allocation; for each file only writes to that file of answered containers are assumed to succeed, and containers may vanish once no longer answered for |
| Quiescence.CountsTold | titus_isolate/allocate/workload_allocate_response.py:84-113 | with the allocators of this repository the files tell the count times 100000 and times 100, and the configured memory settings |
| RemoteFiles.AnswersTold | titus_isolate/allocate/remote/allocator.py:109-134 | with answers of the remote allocator decoded last, each file tells the answer's own threads, quota, shares and memory settings |
| Coherence.SkippedCoherent | titus_isolate/isolate/workload_manager.py:135-139 | a skipped allocation may list its threads in another order than the one it equals, and is told by the same file |
| Coherence.ResponseKeeps | titus_isolate/isolate/workload_manager.py:132-164 | coherence asks nothing of a response but that it answers for exactly what it claims |
| Quiescence.WrittenAgreesIff | titus_isolate/isolate/reconciler.py:25-30 | a freshly written file agrees with the CPU if and only if the allocation lists no thread twice |
| Coherence.ApplyCoherent | titus_isolate/isolate/workload_manager.py:132-164 | writing what changed and skipping the rest makes every answered container coherent |
| Coherence.FinishKeeps | titus_isolate/cgroup/file_cgroup_manager.py:81-94 | writes may end in any order across containers and, unless they are writes to the file in question, in any way |
| Coherence.RewriteKeeps | titus_isolate/isolate/reconciler.py:25-30 | the kernel may show a file in its own list format at any time |
| Coherence.StepKeeps | titus_isolate/isolate/workload_manager.py:52-164 | every step (a call, a write that ends well or not, a kernel rewrite, the end of a container that is no longer answered for) keeps the invariant |
| Coherence.RunKeeps | titus_isolate/isolate/workload_manager.py:52-164 | so every state of every run satisfies it |
| Quiescence.CoherentWhenQuiet | titus_isolate/isolate/workload_manager.py:132-164 | write cache coherence: whenever no write is under way, every claimed workload's cpuset file parses to exactly its claimed threads |
| Reconciling.Reconciler.Reconcile | titus_isolate/isolate/reconciler.py:19-38 | skips while writes are under way, raises on an unparsable file, and calls the exit handler on a difference; with a handler that returns it goes on, and finishes as a success with exactly the differing workloads reported |
| Reconciling.AgreesIff | titus_isolate/isolate/reconciler.py:27-30 | comparing sorted lists: the file reads back as every thread that carries the workload, once, and as no other; a missing file as none |
| Reconciling.ReportsExactly | titus_isolate/isolate/reconciler.py:25-36 | if every claimed workload's file parses: nothing to report if and only if all agree, exit with code 4 if and only if one does not and the handler ends the process, else exactly the differing ones are reported |
| Reconciling.RaisesOnlyUnparsed | titus_isolate/isolate/reconciler.py:25-30 | it raises only over a file that does not parse, and with one it does not finish |
| Reconciling.NeverExits | titus_isolate/isolate/reconciler.py:27-33 | in no such run does it call the exit handler or raise: it is skipped or finds no difference |
| Reconciling.GoneExits | titus_isolate/cgroup/file_cgroup_manager.py:30-35 | but if a claimed container's files vanish before it is removed, the next reconciliation exits, or reports just that container if the handler returns |
| CpusetText.ListRoundTrip | titus_isolate/cgroup/file_cgroup_manager.py:141-143 | what is printed parses back to the same list; the empty list prints a text that does not parse |
| CpusetText.SpansRoundTrip | titus_isolate/cgroup/utils.py:173-178 | any printed list of single ids and a-b ranges parses to the ids it covers |
| CpusetText.KernelRoundTrip | titus_isolate/cgroup/utils.py:173-178 | rewriting the ids sorted, with consecutive ones as ranges, leaves the sorted parse unchanged |
| CpusetText.ExpandCompressed | titus_isolate/cgroup/utils.py:173-178 | gathering consecutive ids into ranges loses and adds none |
| CpusetText.CompressMaximal | titus_isolate/cgroup/utils.py:173-178 | and the ranges are as long as they can be |
| CpusetText.ParsePrinted | titus_isolate/cgroup/utils.py:178 | a printed number reads back, digit by digit |
| CpusetText.ParsesDecimal | titus_isolate/cgroup/utils.py:178 | numbers are the texts of decimal digits, and each digit weighs its power of ten |
| CpusetText.NoLeadingZero | titus_isolate/cgroup/file_cgroup_manager.py:143 | nothing but zero is printed with a leading zero |
| CpusetText.PrintedWithCommas | titus_isolate/cgroup/file_cgroup_manager.py:141-143 | ids are printed in order with a comma between two |
| CpusetText.ParseAtComma | titus_isolate/cgroup/utils.py:174 | a comma separates what is parsed, whatever stands on its sides |
| CpusetText.ParseAtDash | titus_isolate/cgroup/utils.py:174-178 | an entry is the ids from the number before its first dash to the one after its last, or one id without a dash, and raises if either is no number |
| CpusetText.RangeFacts | titus_isolate/cgroup/utils.py:178 | the ids of a range, both ends included |
| CpusetText.SortedAlike | titus_isolate/isolate/reconciler.py:27-30 | two lists sort alike if and only if they hold the same ids equally often |
| Detection.GetCrossPackageViolations | titus_isolate/isolate/detect.py:4-24 | exactly the workloads with a claim on two different packages, each with the ids of its packages |
| Detection.PackagesWithIds | titus_isolate/isolate/detect.py:20-22 | the listed ids are exactly those of the packages that carry the workload |
| Detection.GetSharedCoreViolations | titus_isolate/isolate/detect.py:27-50 | an entry under package id, colon, core id for exactly the cores on which two different workloads have a claim, with exactly the workloads claimed there |
| Violations.SharedIff | titus_isolate/isolate/detect.py:41-50 | a core is shared if and only if two different workloads have a claim on it |
| Violations.CrossIff | titus_isolate/isolate/detect.py:16-24 | a workload is spread if and only if it has claims on two different packages |
| Detection.KeysDistinct | titus_isolate/isolate/detect.py:47 | package:core keys of distinct cores differ |
| Detection.HasBetterIsolation | titus_isolate/isolate/balance.py:43-62 | true if and only if fewer workloads are spread, or as many and fewer cores are shared |
| Detection.BetterIsStrictWeakOrder | titus_isolate/isolate/balance.py:43-62 | irreflexive, transitive, and incomparability is transitive |
| Detection.ImprovementTerminates | titus_isolate/isolate/balance.py:43-62 | a chain of ever better placements on K cores with at most W workloads has at most (W + 1)(K + 1) members |
| Numbering.GetCpu | titus_isolate/model/processor/config.py:26-40 | builds the numbered tree, or raises when a count is zero |
| Numbering.NumberedIds | titus_isolate/model/processor/config.py:26-50 | package p has id p, its core c has id c, and thread r of that core has id r P C + p C + c |
| Numbering.NaturalToOriginal | titus_isolate/model/processor/config.py:43-50 | the thread at natural position i carries id (i mod T) P C + i div T |
| Numbering.NumberingsInverse | titus_isolate/model/processor/cpu.py:58-59 | the two numberings are mutually inverse on 0 .. P C T - 1 |
| Numbering.NumberedWellFormed | titus_isolate/model/processor/config.py:26-50 | every id in 0 .. P C T - 1 is used exactly once, and package and core ids are unique |
| RemoteLayout.GrpcRemoteIsolationAllocator.constructor | titus_isolate/allocate/remote/allocator.py:44-46 | the two index maps: positions to thread ids of the machine, and back |
| RemoteLayout.GrpcRemoteIsolationAllocator.BuildLayout | titus_isolate/allocate/remote/allocator.py:61-91 | the layout of the specification, with the number of threads of the last core, or an exception for a claimed thread the machine does not have; cores without a claim are not sent |
| RemoteLayout.LayoutExactly | titus_isolate/allocate/remote/allocator.py:61-91 | every package in order with its id and core count; in it the claimed cores in order, each under its own id and with its own claimed threads, in order, once, by position and with their workloads |
| RemoteLayout.CoresSentExactly | titus_isolate/allocate/remote/allocator.py:67-84 | the same for the cores of one package |
| RemoteLayout.EntriesName | titus_isolate/allocate/remote/allocator.py:70-78 | such an entry list names a workload at a position if and only if the thread with that position in that core carries it |
| RemoteLayout.PackagesSent | titus_isolate/allocate/remote/allocator.py:61-91 | the layout names a workload at a position if and only if some thread with that position carries it |
| RemoteLayout.PackagesMirrored | titus_isolate/allocate/remote/allocator.py:64-89 | every package is sent, in order, with its id and its number of cores, claimed or not |
| RemoteLayout.CoresSparse | titus_isolate/allocate/remote/allocator.py:67-84 | a core is sent, under its id, if and only if one of its threads is claimed, and never without a thread |
| RemoteLayout.GrpcRemoteIsolationAllocator.Deserialize | titus_isolate/allocate/remote/allocator.py:109-134 | raises on an unknown position; otherwise a workload is on a decoded thread if and only if the thread's position is in its answer, and every answer becomes an allocation with its own id, shares, quota and memory settings, listing position by position the machine's threads |
| RemoteLayout.GrpcRemoteIsolationAllocator.DecodedListsIff | titus_isolate/allocate/remote/allocator.py:113-132 | a decoded response answers for exactly what it claims, once, if and only if no answer repeats a position |
| RemoteLayout.GrpcRemoteIsolationAllocator.LayoutRoundTrip | titus_isolate/allocate/remote/allocator.py:61-134 | the layout sent for any placement, read as per-workload answers, has only known positions, so decoding it succeeds, and decodes to that placement |
| RemoteLayout.GrpcRemoteIsolationAllocator.AnswersExist | titus_isolate/allocate/remote/allocator.py:61-134 | such answers exist for every placement, one per workload and without repetitions |
| EventQueue.StepConserves | titus_isolate/event/event_manager.py:109-218 | every step of producers and consumer keeps accepted = processed + in hand + queued, and one task_done per processed event |
| EventQueue.StepDelivers | titus_isolate/event/event_manager.py:187-211 | every step keeps that each handler has been given exactly the deliveries of the batches so far, whether or not handlers raise |
| EventQueue.StepReports | titus_isolate/event/event_manager.py:204-211 | every call of a handler is counted once, as a success or as a failure |
| EventQueue.RunKeeps | titus_isolate/event/event_manager.py:187-218 | so both hold after any interleaving |
| EventQueue.ExactlyOnce | titus_isolate/event/event_manager.py:155-218 | whenever the consumer is between batches every handler has seen each processed event exactly once, in queue order within its kind, even if handlers raise and whenever it is stopped |
| EventQueue.AllDelivered | titus_isolate/event/event_manager.py:109-130 | over all runs the accepted events are, in order, those offered that are starts or dies with a task id or one of the three internal events; whenever the consumer is between batches and the queue is empty, every handler has seen exactly those, kind by kind and in order |
| EventQueue.StoppedForGood | titus_isolate/event/event_manager.py:187-190 | a consumer that is stopped while idle handles nothing more |
| EventQueue.EveryKindIsDelivered | titus_isolate/event/event_manager.py:132-138 | a batch's events are its starts, dies and internal events; the container event comes first, internal events one by one |
| EventManagers.EventManager.PutEvent | titus_isolate/event/event_manager.py:109-130 | one enqueue step: starts and dies with a task id and the three internal events join the queue, any other is dropped |
| EventManagers.EventManager.GetBatch | titus_isolate/event/event_manager.py:155-169 | without producers in between the batch is the whole queue |
| EventManagers.EventManager.ContainerBatchEvent | titus_isolate/event/event_manager.py:171-185 | the starts and the dies, each in queue order |
| EventManagers.EventManager.DeliverAll | titus_isolate/event/event_manager.py:202-211 | every handler gets every event, in order, whichever of them raise, and every call is counted |
| EventManagers.EventManager.ProcessOnce | titus_isolate/event/event_manager.py:187-218 | one turn of the loop is a sequence of steps, empties the queue, delivers its plan to every handler and accounts for each event once |
| BatchHandling.ContainerBatchEventHandler.Handle | titus_isolate/event/container_batch_event_handler.py:18-48 | which adds and removes the manager is called with, the removes being the container names of the dies in order; unusable starts are counted as ignored |
| BatchHandling.AddsOneByOne | titus_isolate/event/container_batch_event_handler.py:28-40 | each start counts for itself, in order: its workload is added if it has a name that is known, else nothing |
| BatchHandling.SingleMeans | titus_isolate/event/container_batch_event_handler.py:24-47 | a batch of one start puts its workload, a batch of one die pops its container |
| SequencedCalls.TurnMap | titus_isolate/isolate/workload_manager.py:81-101 | one call per event, each with its own outcome: only the events whose calls were answered change the map |
| SequencedCalls.TurnMember | titus_isolate/isolate/workload_manager.py:86-100 | so in turn the last event of an id whose call was answered decides |
| SequencedCalls.BatchRefinesSequence | titus_isolate/event/container_batch_event_handler.py:24-47 | if the allocator answers all the calls, and no container dies after its start in the same batch, one call leaves the same insertion-ordered map as one call per event |
| SequencedCalls.NaiveBackedRefines | titus_isolate/allocate/fall_back_cpu_allocator.py:50-57 | with a naive secondary all the calls are answered, so then it always does |
| SequencedCalls.SingleCallRaises | titus_isolate/event/container_batch_event_handler.py:24-47 | an input at which it does not: a single call raises and the batch call is answered, though no id is both started and died |
| BatchHandling.DisjointIsEnough | titus_isolate/event/container_batch_event_handler.py:24-47 | in particular when no id is both started and died |
| BatchHandling.BatchedMember | titus_isolate/isolate/workload_manager.py:86-92 | in a batch the start wins, wherever the dies of that id stand |
| BatchHandling.InTurnMember | titus_isolate/isolate/workload_manager.py:86-92 | of calls that are all answered, the last event of an id decides |
| SequencedCalls.SameWorkloadsIff | titus_isolate/event/container_batch_event_handler.py:24-47 | if all the calls are answered, both leave the same workloads if and only if the last event of every started id is a start |
| SequencedCalls.SameAnywayIff | titus_isolate/event/container_batch_event_handler.py:24-47 | whatever the calls come to, both leave the same workloads if and only if, for every id, the batch and the last event heard say the same |
| SequencedCalls.SameMapInTurnIff | titus_isolate/event/container_batch_event_handler.py:24-47 | if all the calls are answered, both leave the same map, order included, if and only if moreover the workloads that are new or died are started in the order of their first starts after their last dies |
| SequencedCalls.StartThenDie | titus_isolate/event/container_batch_event_handler.py:24-47 | from a fresh manager, a workload that starts and dies in one batch stays in the map, and in turn does not |
| InsertionOrder.TurnSorted | titus_isolate/isolate/workload_manager.py:86-92 | in turn, workloads that never died keep their places and the others follow by their first start after their last die |
| InsertionOrder.BatchSorted | titus_isolate/isolate/workload_manager.py:86-92 | in one batch, the others follow by their first start |
| SequencedCalls.BatchLeavesSameCpu | titus_isolate/allocate/greedy_cpu_allocator.py:11-22 | with the greedy allocator, if all the single calls fit, the batch call fits too and leaves the same CPU, map and last response |

## Left out

- Cgroups.FileCgroupManager.FinishJob: two cpuset writes of one container under way at once may reach the file in either order; the model allows both orders, but coherence is claimed only for runs without that. A thread that has started but is not yet in the list is not modelled either.
- Rebalancing.RebalanceIsFixpoint: when a foreign allocator repeats its response is not known; for one the claim is `RebalanceIsFixpointIff`.
- Views.WorkloadIdsToThreadIds: the order of the ids on one thread, which Python leaves open, is not kept; the workload ids of a thread are a set.
- CpusetText.SpansRoundTrip: `int` also accepts signs, blanks and underscores; the parser here accepts digits only and treats anything else as the exception.
- Fallback.FallbackAllocator.Isolate: the counters for freeing and rebalancing, which nothing increments, are dropped; a foreign allocator is represented by the claims it leaves on the request's CPU and its response, which is for the same tree.
- EventManagers.EventManager.DeliverAll: successes and failures are counted over all handlers, not per handler.
- Manager.WorkloadManager.Isolate: resource usage, metadata and job ids of a request and the duration metrics; an event log that fails is a parameter of the call.
- Processor.Cpu.constructor: asks for unique thread, package and core ids, which the source's constructors do not check; the leaves of the tree are thread ids with a table of thread objects beside it, where the source has the objects themselves as leaves.
- EventManagers.EventManager.GetBatch: the wait with a timeout is a return without an event when the queue is empty.
- The remote solver, gRPC and protobuf, custom constraints and instance metadata: foreign code.
- Docker, Kubernetes, Flask, systemd, S3, Prometheus, Keystone, lscpu and sysctl: input and output.
- Cgroup paths and real files: a map from container and file to text stands for them.
- Real threads, locks and timeouts: steps stand for them, so there is no claim about progress.
- Reporting.Visualize: the text that is drawn, beyond whether drawing raises.
- Logging, metric registries and status endpoints: no state of the model depends on them.
- Configuration lookup, singletons, pod parsing: thin wrappers. The no-op allocator is one of the foreign ones; it answers for exactly what it claims only while every claimed workload is requested.
- Usage padding and prediction: floating-point data with no claim of this depth.
