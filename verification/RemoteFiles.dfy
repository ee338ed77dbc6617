/** What the cgroup files tell once the answers of the remote allocator have been written. */
module RemoteFiles {
  import opened Collections
  import opened Topology
  import opened CpusetText
  import opened Cgroups
  import opened Manager
  import opened Coherence
  import opened Quiescence
  import opened RemoteLayout

  /** With answers decoded last and no write under way, every file tells what came over the wire. */
  lemma AnswersTold(remote: GrpcRemoteIsolationAllocator, answers: seq<CpusetAnswer>, c: Setting, states: seq<Sys>,
                    steps: seq<Step>, i: nat, k: nat)
    requires IsRun(c, states, steps) && i < |states| && states[i].cg.jobs == []
    requires remote.AllKnown(answers) && states[i].last == remote.Decoded(answers) && k < |answers|
    ensures (answers[k].id, c.file) in states[i].cg.files
    ensures var a := answers[k];
            var text := states[i].cg.files[(a.id, c.file)];
            match c.file
            case Cpuset => CpusetNames(remote.machine, text, a.positions)
            case Quota => ParseNat(text) == Some(a.quota)
            case Shares => ParseNat(text) == Some(a.shares)
            case MemoryMigrate => text == if a.flags.migrate then "1" else "0"
            case MemorySpreadPage => text == if a.flags.spreadPage then "1" else "0"
            case MemorySpreadSlab => text == if a.flags.spreadSlab then "1" else "0"
  {
    hide IsRun, ParseNat, ParseCpuset, Sort;
    remote.DecodedEach(answers);
    var s := states[i];
    var a := s.last[k];
    FilesTell(c, states, steps, i, a);
    if c.file == Cpuset && a.threadIds != [] {
      var ids := ParseCpuset(s.cg.files[(a.id, Cpuset)]).value;
      SameThreads(ids, a.threadIds);
      ByPosition(remote.machine, ids, a.threadIds, answers[k].positions);
    }
  }

  /** The text reads back as exactly the threads at these positions; without a position nothing can be read. */
  ghost predicate CpusetNames(machine: Shape, text: string, positions: seq<nat>) {
    if positions == [] then ParseCpuset(text).Failure? || ParseCpuset(text) == Success([])
    else
      && ParseCpuset(text).Success?
      && forall t :: t in ParseCpuset(text).value <==>
           exists j :: 0 <= j < |positions| && positions[j] < |Threads(machine)| && Threads(machine)[positions[j]] == t
  }

  lemma SameThreads(ids: seq<nat>, ids': seq<nat>)
    requires Sort(ids) == Sort(ids')
    ensures forall t :: t in ids <==> t in ids'
  {
    SortedAlike(ids, ids');
    forall t ensures t in ids <==> t in ids' {
      assert t in multiset(ids) <==> t in multiset(ids');
    }
  }

  lemma ByPosition(machine: Shape, ids: seq<nat>, listed: seq<nat>, positions: seq<nat>)
    requires forall t :: t in ids <==> t in listed
    requires |listed| == |positions|
    requires forall j :: 0 <= j < |positions| ==>
               positions[j] < |Threads(machine)| && listed[j] == Threads(machine)[positions[j]]
    ensures forall t ::
              t in ids <==> exists j :: 0 <= j < |positions|
                                     && positions[j] < |Threads(machine)| && Threads(machine)[positions[j]] == t
  {
    hide Threads;
    forall t ensures t in ids <==>
        exists j :: 0 <= j < |positions| && positions[j] < |Threads(machine)| && Threads(machine)[positions[j]] == t
    {
      if t in ids {
        var j :| 0 <= j < |listed| && listed[j] == t;
        assert positions[j] < |Threads(machine)|;
      }
    }
  }
}
