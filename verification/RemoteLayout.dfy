/**
  The layout sent to the remote allocator and the answer read back. On the wire threads go by their natural
  positions; only claimed threads, and cores with a claimed thread, are sent.
 */
module RemoteLayout {
  import opened Collections
  import opened Topology
  import opened Processor
  import opened Allocations
  import opened Allocators

  datatype LayoutThread = LayoutThread(id: nat, taskIds: set<Id>)
  datatype LayoutCore = LayoutCore(id: nat, threads: seq<LayoutThread>)
  datatype LayoutPackage = LayoutPackage(id: nat, numCores: nat, cores: seq<LayoutCore>)
  datatype Layout = Layout(packages: seq<LayoutPackage>, threadsPerCore: nat)

  /** What comes back for a workload: the natural positions of its threads, and its other settings. */
  datatype CpusetAnswer = CpusetAnswer(id: Id, positions: seq<nat>, shares: nat, quota: nat, flags: Flags)

  // ---- what is sent ----

  function SentThreads(ts: seq<nat>, pl: Placement, natural: map<nat, nat>): Result<seq<LayoutThread>> {
    if ts == [] then Success([]) else
      var t := ts[|ts| - 1];
      match SentThreads(ts[..|ts| - 1], pl, natural)
      case Failure => Failure
      case Success(before) =>
        if t !in pl || pl[t] == {} then Success(before)
        else if t in natural then Success(before + [LayoutThread(natural[t], pl[t])])
        else Failure
  }

  function SentCores(cores: seq<Core>, pl: Placement, natural: map<nat, nat>): Result<seq<LayoutCore>> {
    if cores == [] then Success([]) else
      var c := cores[|cores| - 1];
      match (SentCores(cores[..|cores| - 1], pl, natural), SentThreads(c.threads, pl, natural))
      case (Success(before), Success(ts)) => Success(if ts == [] then before else before + [LayoutCore(c.id, ts)])
      case _ => Failure
  }

  function SentPackages(shape: Shape, pl: Placement, natural: map<nat, nat>): Result<seq<LayoutPackage>> {
    if shape == [] then Success([]) else
      var p := shape[|shape| - 1];
      match (SentPackages(shape[..|shape| - 1], pl, natural), SentCores(p.cores, pl, natural))
      case (Success(before), Success(cores)) => Success(before + [LayoutPackage(p.id, |p.cores|, cores)])
      case _ => Failure
  }

  /** A thread of the layout at natural position `i` that names `w`. */
  ghost predicate Names(ts: seq<LayoutThread>, i: nat, w: Id) {
    exists lt :: lt in ts && lt.id == i && w in lt.taskIds
  }

  ghost predicate CoresName(cores: seq<LayoutCore>, i: nat, w: Id) {
    exists lc :: lc in cores && Names(lc.threads, i, w)
  }

  ghost predicate LayoutNames(packages: seq<LayoutPackage>, i: nat, w: Id) {
    exists lp :: lp in packages && CoresName(lp.cores, i, w)
  }

  /** Some thread of `ts` numbered `i` carries `w`. */
  ghost predicate Carries(ts: seq<nat>, pl: Placement, natural: map<nat, nat>, i: nat, w: Id) {
    exists t :: t in ts && t in natural && natural[t] == i && t in pl && w in pl[t]
  }

  lemma {:induction false} ThreadsSent(ts: seq<nat>, pl: Placement, natural: map<nat, nat>, i: nat, w: Id)
    requires forall t :: t in ts ==> t in natural
    ensures SentThreads(ts, pl, natural).Success?
    ensures Names(SentThreads(ts, pl, natural).value, i, w) <==> Carries(ts, pl, natural, i, w)
    decreases |ts|
  {
    if ts != [] {
      var n := |ts| - 1;
      var t := ts[n];
      assert ts == ts[..n] + [t];
      ThreadsSent(ts[..n], pl, natural, i, w);
      var before := SentThreads(ts[..n], pl, natural).value;
      var all := SentThreads(ts, pl, natural).value;
      if t in pl && pl[t] != {} {
        var lt := LayoutThread(natural[t], pl[t]);
        assert all == before + [lt];
        assert forall x :: x in all <==> x in before || x == lt;
        assert lt in all;
      } else {
        assert all == before;
      }
    }
  }

  lemma {:induction false} CoresSent(cores: seq<Core>, pl: Placement, natural: map<nat, nat>, i: nat, w: Id)
    requires forall c, t :: c in cores && t in c.threads ==> t in natural
    ensures SentCores(cores, pl, natural).Success?
    ensures CoresName(SentCores(cores, pl, natural).value, i, w) <==>
            exists c :: c in cores && Carries(c.threads, pl, natural, i, w)
    decreases |cores|
  {
    hide Names, Carries, SentThreads;
    if cores != [] {
      var n := |cores| - 1;
      var c := cores[n];
      assert cores == cores[..n] + [c];
      CoresSent(cores[..n], pl, natural, i, w);
      ThreadsSent(c.threads, pl, natural, i, w);
      NamesNobody(i, w);
      var before, ts := SentCores(cores[..n], pl, natural).value, SentThreads(c.threads, pl, natural).value;
      var all := SentCores(cores, pl, natural).value;
      assert forall x :: x in cores <==> x in cores[..n] || x == c;
      if ts != [] {
        assert all == before + [LayoutCore(c.id, ts)];
        assert forall x :: x in all <==> x in before || x == LayoutCore(c.id, ts);
      } else {
        assert all == before;
      }
    }
  }

  lemma NamesNobody(i: nat, w: Id)
    ensures !Names([], i, w)
  {
  }

  lemma {:induction false} PackagesSent(shape: Shape, pl: Placement, natural: map<nat, nat>, i: nat, w: Id)
    requires forall p, t :: p in shape && t in p.Threads() ==> t in natural
    ensures SentPackages(shape, pl, natural).Success?
    ensures LayoutNames(SentPackages(shape, pl, natural).value, i, w) <==>
            exists p :: p in shape && Carries(p.Threads(), pl, natural, i, w)
    decreases |shape|
  {
    hide CoresName, Carries, SentCores;
    if shape != [] {
      var n := |shape| - 1;
      var p := shape[n];
      assert shape == shape[..n] + [p];
      PackagesSent(shape[..n], pl, natural, i, w);
      PackageSent(p, pl, natural, i, w);
      var before, cores := SentPackages(shape[..n], pl, natural).value, SentCores(p.cores, pl, natural).value;
      var sent := LayoutPackage(p.id, |p.cores|, cores);
      var all := SentPackages(shape, pl, natural).value;
      assert all == before + [sent];
      assert forall x :: x in all <==> x in before || x == sent;
      assert forall x :: x in shape <==> x in shape[..n] || x == p;
    }
  }

  lemma PackageSent(p: Package, pl: Placement, natural: map<nat, nat>, i: nat, w: Id)
    requires forall t :: t in p.Threads() ==> t in natural
    ensures SentCores(p.cores, pl, natural).Success?
    ensures CoresName(SentCores(p.cores, pl, natural).value, i, w) <==> Carries(p.Threads(), pl, natural, i, w)
  {
    hide CoresName, SentCores;
    forall c, t | c in p.cores && t in c.threads ensures t in p.Threads() {
      var k :| 0 <= k < |p.cores| && p.cores[k] == c;
      FlattenMember(p.CoreThreads(), k, t);
    }
    CoresSent(p.cores, pl, natural, i, w);
    if Carries(p.Threads(), pl, natural, i, w) {
      var t :| t in p.Threads() && t in natural && natural[t] == i && t in pl && w in pl[t];
      var k := ThreadCore(p, t);
      assert p.cores[k] in p.cores && Carries(p.cores[k].threads, pl, natural, i, w);
    }
  }

  /** Every package is sent, with its id and the number of its cores, whether or not anything is claimed there. */
  lemma {:induction false} PackagesMirrored(shape: Shape, pl: Placement, natural: map<nat, nat>)
    requires SentPackages(shape, pl, natural).Success?
    ensures var sent := SentPackages(shape, pl, natural).value;
            && |sent| == |shape|
            && forall p :: 0 <= p < |shape| ==>
                 && sent[p].id == shape[p].id && sent[p].numCores == |shape[p].cores|
                 && Success(sent[p].cores) == SentCores(shape[p].cores, pl, natural)
    decreases |shape|
  {
    hide SentCores;
    if shape != [] { PackagesMirrored(shape[..|shape| - 1], pl, natural); }
  }

  ghost predicate HasClaim(core: Core, pl: Placement) { exists t :: t in core.threads && t in pl && pl[t] != {} }

  /** The layout is sparse: a core is sent exactly when one of its threads is claimed, and never without a thread. */
  lemma {:induction false} CoresSparse(cores: seq<Core>, pl: Placement, natural: map<nat, nat>, id: nat)
    requires SentCores(cores, pl, natural).Success?
    ensures forall lc :: lc in SentCores(cores, pl, natural).value ==> lc.threads != []
    ensures (exists lc :: lc in SentCores(cores, pl, natural).value && lc.id == id) <==>
            (exists c :: c in cores && c.id == id && HasClaim(c, pl))
    decreases |cores|
  {
    hide SentThreads, HasClaim;
    if cores != [] {
      var n := |cores| - 1;
      var c := cores[n];
      assert cores == cores[..n] + [c];
      CoresSparse(cores[..n], pl, natural, id);
      SentIffClaimed(c.threads, c, pl, natural);
      var before, ts := SentCores(cores[..n], pl, natural).value, SentThreads(c.threads, pl, natural).value;
      var all := SentCores(cores, pl, natural).value;
      assert forall x :: x in cores <==> x in cores[..n] || x == c;
      if ts != [] {
        assert all == before + [LayoutCore(c.id, ts)];
        assert forall x :: x in all <==> x in before || x == LayoutCore(c.id, ts);
      } else {
        assert all == before;
      }
    }
  }

  lemma SentIffClaimed(ts: seq<nat>, core: Core, pl: Placement, natural: map<nat, nat>)
    requires SentThreads(ts, pl, natural).Success? && ts == core.threads
    ensures SentThreads(ts, pl, natural).value != [] <==> HasClaim(core, pl)
  {
    AnySent(ts, pl, natural);
  }

  lemma {:induction false} AnySent(ts: seq<nat>, pl: Placement, natural: map<nat, nat>)
    requires SentThreads(ts, pl, natural).Success?
    ensures SentThreads(ts, pl, natural).value != [] <==> exists t :: t in ts && t in pl && pl[t] != {}
    decreases |ts|
  {
    if ts != [] {
      var n := |ts| - 1;
      assert ts == ts[..n] + [ts[n]];
      AnySent(ts[..n], pl, natural);
    }
  }

  /** The claimed threads of a list, and the cores with a claimed thread, in order. */
  function ClaimedThreads(ts: seq<nat>, pl: Placement): seq<nat> { Keep(ts, ClaimedSet(pl)) }

  ghost function ClaimedCores(cores: seq<Core>, pl: Placement): seq<Core> {
    Keep(cores, set c | c in cores && HasClaim(c, pl))
  }

  /** The entries of a core: each of its claimed threads once, in order, under its own position, with its workloads. */
  ghost predicate Entries(entries: seq<LayoutThread>, ts: seq<nat>, pl: Placement, natural: map<nat, nat>) {
    var claimed := ClaimedThreads(ts, pl);
    && |entries| == |claimed|
    && forall k :: 0 <= k < |claimed| ==>
         && claimed[k] in natural && claimed[k] in pl
         && entries[k].id == natural[claimed[k]] && entries[k].taskIds == pl[claimed[k]]
  }

  lemma {:induction false} ThreadsSentExactly(ts: seq<nat>, pl: Placement, natural: map<nat, nat>)
    requires SentThreads(ts, pl, natural).Success?
    ensures Entries(SentThreads(ts, pl, natural).value, ts, pl, natural)
    decreases |ts|
  {
    hide Keep;
    if ts == [] {
      assert ClaimedThreads(ts, pl) == [] by { KeepNothing(ts, ClaimedSet(pl)); }
    } else {
      var n := |ts| - 1;
      ThreadsSentExactly(ts[..n], pl, natural);
      KeepOneMore(ts, ClaimedSet(pl));
    }
  }

  lemma KeepNothing<T>(s: seq<T>, keep: set<T>)
    ensures s == [] ==> Keep(s, keep) == []
  {
  }

  lemma KeepOneMore<T>(s: seq<T>, keep: set<T>)
    requires s != []
    ensures var init, x := s[..|s| - 1], s[|s| - 1];
            Keep(s, keep) == if x in keep then Keep(init, keep) + [x] else Keep(init, keep)
  {
    var init, x := s[..|s| - 1], s[|s| - 1];
    assert s == init + [x];
    KeepConcat(init, [x], keep);
    assert Keep([x], keep) == if x in keep then [x] else [];
  }

  /**
    The sent cores are the claimed cores, in order, each under its own id and with its own threads: it names a workload
    at a position exactly when one of its threads with that position carries it.
   */
  lemma {:induction false} CoresSentExactly(cores: seq<Core>, pl: Placement, natural: map<nat, nat>)
    requires SentCores(cores, pl, natural).Success?
    ensures var sent, claimed := SentCores(cores, pl, natural).value, ClaimedCores(cores, pl);
            && |sent| == |claimed|
            && forall k :: 0 <= k < |claimed| ==>
                 sent[k].id == claimed[k].id && Entries(sent[k].threads, claimed[k].threads, pl, natural)
    decreases |cores|
  {
    hide Keep, HasClaim, SentThreads, Entries;
    if cores == [] {
      KeepNothing(cores, set c | c in cores && HasClaim(c, pl));
    } else {
      var n := |cores| - 1;
      CoresSentExactly(cores[..n], pl, natural);
      ThreadsSentExactly(cores[n].threads, pl, natural);
      SentIffClaimed(cores[n].threads, cores[n], pl, natural);
      ClaimedOneMore(cores, pl);
    }
  }

  lemma ClaimedOneMore(cores: seq<Core>, pl: Placement)
    requires cores != []
    ensures var init, c := cores[..|cores| - 1], cores[|cores| - 1];
            ClaimedCores(cores, pl) == if HasClaim(c, pl) then ClaimedCores(init, pl) + [c] else ClaimedCores(init, pl)
  {
    hide Keep, HasClaim;
    var init, c := cores[..|cores| - 1], cores[|cores| - 1];
    var all, some := set x | x in cores && HasClaim(x, pl), set x | x in init && HasClaim(x, pl);
    KeepOneMore(cores, all);
    KeepAlike(init, all, some);
  }

  /** Only the part of a filter that meets the list matters. */
  lemma {:induction false} KeepAlike<T>(s: seq<T>, k1: set<T>, k2: set<T>)
    requires forall x :: x in s ==> (x in k1 <==> x in k2)
    ensures Keep(s, k1) == Keep(s, k2)
    decreases |s|
  {
    if s != [] { KeepAlike(s[1..], k1, k2); }
  }

  lemma EntriesName(entries: seq<LayoutThread>, ts: seq<nat>, pl: Placement, natural: map<nat, nat>, i: nat, w: Id)
    requires Entries(entries, ts, pl, natural) && forall t :: t in ts ==> t in natural
    ensures Names(entries, i, w) <==> Carries(ts, pl, natural, i, w)
  {
    var claimed := ClaimedThreads(ts, pl);
    KeepFacts(ts, ClaimedSet(pl));
    if Names(entries, i, w) {
      var k :| 0 <= k < |entries| && entries[k].id == i && w in entries[k].taskIds;
      assert claimed[k] in ToSet(claimed);
    }
    if Carries(ts, pl, natural, i, w) {
      var t :| t in ts && t in natural && natural[t] == i && t in pl && w in pl[t];
      assert t in ToSet(claimed);
      var k :| 0 <= k < |claimed| && claimed[k] == t;
      assert entries[k] in entries;
    }
  }

  /** The layout of a whole processor, package by package and core by core. */
  lemma LayoutExactly(shape: Shape, pl: Placement, natural: map<nat, nat>)
    requires SentPackages(shape, pl, natural).Success?
    ensures var sent := SentPackages(shape, pl, natural).value;
            && |sent| == |shape|
            && forall p :: 0 <= p < |shape| ==>
                 var claimed := ClaimedCores(shape[p].cores, pl);
                 && sent[p].id == shape[p].id && sent[p].numCores == |shape[p].cores|
                 && |sent[p].cores| == |claimed|
                 && forall k :: 0 <= k < |claimed| ==>
                      && sent[p].cores[k].id == claimed[k].id
                      && Entries(sent[p].cores[k].threads, claimed[k].threads, pl, natural)
  {
    hide SentCores, ClaimedCores, Entries;
    PackagesMirrored(shape, pl, natural);
    forall p | 0 <= p < |shape| && SentCores(shape[p].cores, pl, natural).Success?
      ensures var sent, claimed := SentCores(shape[p].cores, pl, natural).value, ClaimedCores(shape[p].cores, pl);
              && |sent| == |claimed|
              && forall k :: 0 <= k < |claimed| ==>
                   sent[k].id == claimed[k].id && Entries(sent[k].threads, claimed[k].threads, pl, natural)
    {
      CoresSentExactly(shape[p].cores, pl, natural);
    }
  }

  // ---- the allocator ----

  class GrpcRemoteIsolationAllocator {
    const machine: Shape
    const natural2original: map<nat, nat>
    const original2natural: map<nat, nat>

    /** The two index maps of the machine's own processor. */
    ghost predicate Valid() {
      && WellFormed(machine)
      && (forall i: nat :: i in natural2original <==> i < |Threads(machine)|)
      && (forall i :: i in natural2original ==> natural2original[i] == Threads(machine)[i])
      && original2natural.Keys == ToSet(Threads(machine))
      && forall i: nat :: i < |Threads(machine)| ==> original2natural[Threads(machine)[i]] == i
    }

    constructor (machine: Shape)
      requires WellFormed(machine)
      ensures Valid() && this.machine == machine
    {
      hide WellFormed, Threads;
      var ts := Threads(machine);
      var forth: map<nat, nat>, back: map<nat, nat> := map[], map[];
      WholePrefix(ts);
      ThreadsDistinct(machine);
      assert ToSet(ts[..0]) == {};
      for i := 0 to |ts|
        invariant forall j: nat :: j in forth <==> j < i
        invariant forall j :: j in forth ==> forth[j] == ts[j]
        invariant back.Keys == ToSet(ts[..i])
        invariant forall j: nat :: j < i ==> ts[j] in back && back[ts[j]] == j
      {
        PrefixSet(ts, i);
        forth, back := forth[i := ts[i]], back[ts[i] := i];
      }
      this.machine, natural2original, original2natural := machine, forth, back;
    }

    /** `__build_base_req`; a thread the machine does not have raises. */
    method BuildLayout(cpu: Cpu) returns (r: Result<Layout>)
      requires Valid() && cpu.Valid()
      ensures r.Success? <==> SentPackages(cpu.shape, cpu.State(), original2natural).Success?
      ensures r.Success? ==> Success(r.value.packages) == SentPackages(cpu.shape, cpu.State(), original2natural)
      ensures r.Success? ==> r.value.threadsPerCore == LastCoreSize(cpu.shape)
      ensures |cpu.shape| > 0 && |cpu.shape[|cpu.shape| - 1].cores| > 0
      ensures var cores := cpu.shape[|cpu.shape| - 1].cores;
              r.Success? ==> r.value.threadsPerCore == |cores[|cores| - 1].threads|
    {
      hide WellFormed, Threads, SentCores, SentPackages, LastCoreSize, Valid, Cpu.Valid, Cpu.State, ToSet;
      LastCoreOf(cpu);
      var packages: seq<LayoutPackage> := [];
      var threadsPerCore: nat := 0;
      ghost var pl := cpu.State();
      NothingSent(pl, original2natural);
      for p := 0 to |cpu.shape|
        invariant SentPackages(cpu.shape[..p], pl, original2natural) == Success(packages)
        invariant p > 0 ==> threadsPerCore == LastCoreSize(cpu.shape[..p])
      {
        var pkg := cpu.shape[p];
        OneMorePackage(cpu.shape, pl, original2natural, p);
        var cores, size := BuildCores(cpu, pkg.cores);
        if cores.Failure? {
          WholePrefix(cpu.shape);
          PackagesFailed(cpu.shape, pl, original2natural, p + 1);
          return Failure;
        }
        LastCore(cpu.shape, p);
        threadsPerCore := size;
        packages := packages + [LayoutPackage(pkg.id, |pkg.cores|, cores.value)];
      }
      assert cpu.shape[..|cpu.shape|] == cpu.shape;
      r := Success(Layout(packages, threadsPerCore));
    }

    method BuildCores(cpu: Cpu, cores: seq<Core>) returns (r: Result<seq<LayoutCore>>, size: nat)
      requires cpu.Valid()
      ensures r == SentCores(cores, cpu.State(), original2natural)
      ensures r.Success? ==> size == if cores == [] then 0 else |cores[|cores| - 1].threads|
    {
      hide WellFormed, Threads, SentThreads;
      var sent: seq<LayoutCore> := [];
      size := 0;
      ghost var pl := cpu.State();
      for c := 0 to |cores|
        invariant SentCores(cores[..c], pl, original2natural) == Success(sent)
        invariant size == if c == 0 then 0 else |cores[c - 1].threads|
      {
        assert cores[..c + 1][..c] == cores[..c];
        var ts := BuildThreads(cpu, cores[c].threads);
        if ts.Failure? {
          CoresFailed(cores, pl, original2natural, c + 1);
          return Failure, 0;
        }
        size := |cores[c].threads|;
        if ts.value != [] {
          sent := sent + [LayoutCore(cores[c].id, ts.value)];
        }
      }
      WholePrefix(cores);
      r := Success(sent);
    }

    method BuildThreads(cpu: Cpu, ts: seq<nat>) returns (r: Result<seq<LayoutThread>>)
      requires cpu.Valid()
      ensures r == SentThreads(ts, cpu.State(), original2natural)
    {
      var sent: seq<LayoutThread> := [];
      for i := 0 to |ts|
        invariant SentThreads(ts[..i], cpu.State(), original2natural) == Success(sent)
      {
        assert ts[..i + 1][..i] == ts[..i];
        if ts[i] in cpu.threads && cpu.threads[ts[i]].IsClaimed() {
          if ts[i] !in original2natural {
            ThreadsFailed(ts, cpu.State(), original2natural, i + 1);
            return Failure;
          }
          sent := sent + [LayoutThread(original2natural[ts[i]], cpu.threads[ts[i]].workloadIds)];
        }
      }
      WholePrefix(ts);
      r := Success(sent);
    }

    /**
      `__deser`: a position the machine does not have raises. Otherwise a workload is on a thread of the new CPU
      exactly when the thread's natural position is in its answer, and every answer becomes an allocation with the
      thread ids at its positions and its own settings.
     */
    method Deserialize(answers: seq<CpusetAnswer>) returns (r: Result<AllocateResponse>)
      requires Valid()
      ensures r.Success? <==> AllKnown(answers)
      ensures r.Success? ==>
                && fresh(r.value.cpu) && fresh(r.value.cpu.objects) && r.value.cpu.Valid()
                && r.value.cpu.shape == machine && Answers(answers, r.value.cpu.State())
                && r.value.allocations == Decoded(answers)
      ensures r.Success? ==> |r.value.allocations| == |answers|
      ensures r.Success? ==> forall k :: 0 <= k < |answers| ==>
                var a, one := answers[k], r.value.allocations[k];
                && one.id == a.id && one.shares == a.shares && one.quota == a.quota && one.flags == a.flags
                && |one.threadIds| == |a.positions|
                && forall j :: 0 <= j < |a.positions| ==>
                     a.positions[j] < |Threads(machine)| && one.threadIds[j] == Threads(machine)[a.positions[j]]
    {
      DecodedEach(answers);
      hide WellFormed, Decoded, Answers, AllKnown, Threads;
      var translated := TranslateAll(answers);
      if translated.Failure? {
        return Failure;
      }
      var cpu := new Cpu(machine, EmptyPlacement());
      ClaimAnswered(cpu, translated.value);
      AnsweredByPosition(answers, cpu.State());
      r := Success(AllocateResponse(cpu, translated.value));
    }

    method TranslateAll(answers: seq<CpusetAnswer>) returns (r: Result<seq<Allocation>>)
      requires Valid()
      ensures r.Success? <==> AllKnown(answers)
      ensures r.Success? ==> r.value == Decoded(answers)
    {
      hide WellFormed, Threads, Translate, Known;
      var allocs: seq<Allocation> := [];
      for k := 0 to |answers|
        invariant |allocs| == k
        invariant forall j :: 0 <= j < k ==> Known(answers[j].positions) && allocs[j] == DecodedOne(answers[j])
      {
        assert answers[k] in answers;
        var ids := TranslateIds(answers[k].positions);
        if ids.Failure? {
          return Failure;
        }
        var a := answers[k];
        allocs := allocs + [Allocation(a.id, ids.value, a.shares, a.quota, a.flags)];
      }
      r := Success(allocs);
    }

    /** Every position of the answers is one of the machine's. */
    ghost predicate AllKnown(answers: seq<CpusetAnswer>) { forall a :: a in answers ==> Known(a.positions) }

    ghost predicate Known(positions: seq<nat>) { forall i :: i in positions ==> i < |Threads(machine)| }

    function EmptyPlacement(): (pl: Placement)
      ensures Covers(machine, pl) && forall t :: t in pl ==> pl[t] == {}
    {
      map t | t in Threads(machine) :: {}
    }

    ghost function Translate(positions: seq<nat>): seq<nat>
      requires Known(positions)
    {
      seq(|positions|, k requires 0 <= k < |positions| => (assert positions[k] in positions;
                                                           Threads(machine)[positions[k]]))
    }

    ghost function DecodedOne(a: CpusetAnswer): Allocation
      requires Known(a.positions)
    {
      Allocation(a.id, Translate(a.positions), a.shares, a.quota, a.flags)
    }

    ghost function Decoded(answers: seq<CpusetAnswer>): seq<Allocation>
      requires AllKnown(answers)
    {
      seq(|answers|, k requires 0 <= k < |answers| => (assert answers[k] in answers; DecodedOne(answers[k])))
    }

    /** Answer by answer: the settings as they came, and the threads at the positions, in order. */
    lemma DecodedEach(answers: seq<CpusetAnswer>)
      ensures AllKnown(answers) ==> |Decoded(answers)| == |answers|
      ensures AllKnown(answers) ==> forall k :: 0 <= k < |answers| ==>
                var a, one := answers[k], Decoded(answers)[k];
                && one.id == a.id && one.shares == a.shares && one.quota == a.quota && one.flags == a.flags
                && |one.threadIds| == |a.positions|
                && forall j :: 0 <= j < |a.positions| ==>
                     a.positions[j] < |Threads(machine)| && one.threadIds[j] == Threads(machine)[a.positions[j]]
    {
      hide Threads;
      if AllKnown(answers) {
        forall k, j | 0 <= k < |answers| && 0 <= j < |answers[k].positions|
          ensures answers[k] in answers && answers[k].positions[j] in answers[k].positions
        {
        }
      }
    }

    /** The claims are those the answers ask for. */
    ghost predicate Answers(answers: seq<CpusetAnswer>, pl: Placement) {
      Covers(machine, pl) && forall i: nat, w :: i < |Threads(machine)| ==>
        Threads(machine)[i] in pl && (w in pl[Threads(machine)[i]] <==> Asks(answers, w, i))
    }

    method TranslateIds(positions: seq<nat>) returns (r: Result<seq<nat>>)
      requires Valid()
      ensures r.Success? <==> Known(positions)
      ensures r.Success? ==> r.value == Translate(positions)
    {
      hide WellFormed, Threads;
      var ids := [];
      for k := 0 to |positions|
        invariant |ids| == k
        invariant forall j :: 0 <= j < k ==>
                    positions[j] < |Threads(machine)| && ids[j] == Threads(machine)[positions[j]]
      {
        assert positions[k] in positions;
        if positions[k] !in natural2original {
          return Failure;
        }
        ids := ids + [natural2original[positions[k]]];
      }
      r := Success(ids);
    }

    /** Every thread claims the workloads whose allocation lists it. */
    method ClaimAnswered(cpu: Cpu, allocs: seq<Allocation>)
      requires Valid() && cpu.Valid() && cpu.shape == machine
      requires forall t :: t in cpu.State() ==> cpu.State()[t] == {}
      modifies cpu.objects
      ensures forall t :: t in cpu.State() ==> cpu.State()[t] == Claimants(allocs, t)
    {
      hide WellFormed, Threads, ToSet;
      cpu.ValidKeys();
      var ts := Threads(machine);
      EmptyPrefix(ts);
      assert forall t :: t in cpu.threads ==> cpu.State()[t] == cpu.threads[t].workloadIds;
      for i := 0 to |ts|
        invariant forall t :: t in cpu.threads ==>
          cpu.threads[t].workloadIds == (if t in ToSet(ts[..i]) then Claimants(allocs, t) else {})
      {
        PrefixSet(ts, i);
        ClaimFor(cpu.threads[ts[i]], Claimants(allocs, ts[i]));
      }
      WholePrefix(ts);
    }

    lemma EmptyPrefix(ts: seq<nat>)
      ensures ToSet(ts[..0]) == {}
    {
    }

    method ClaimFor(thread: Thread, ws: set<Id>)
      modifies thread
      ensures thread.workloadIds == old(thread.workloadIds) + ws
    {
      var todo := ws;
      while todo != {}
        invariant todo <= ws && thread.workloadIds == old(thread.workloadIds) + (ws - todo)
        decreases |todo|
      {
        var w :| w in todo;
        thread.Claim(w);
        todo := todo - {w};
      }
    }

    lemma AnsweredByPosition(answers: seq<CpusetAnswer>, pl: Placement)
      requires Valid() && Covers(machine, pl) && AllKnown(answers)
      requires forall t :: t in pl ==> pl[t] == Claimants(Decoded(answers), t)
      ensures Answers(answers, pl)
    {
      hide WellFormed, Threads, Known;
      var ts := Threads(machine);
      ThreadsDistinct(machine);
      forall i: nat, w | i < |ts| ensures ts[i] in pl && (w in pl[ts[i]] <==> Asks(answers, w, i)) {
        assert ts[i] in ToSet(ts);
        ClaimedIffAsked(answers, w, i);
      }
    }

    lemma ClaimedIffAsked(answers: seq<CpusetAnswer>, w: Id, i: nat)
      requires Valid() && AllKnown(answers) && i < |Threads(machine)|
      ensures w in Claimants(Decoded(answers), Threads(machine)[i]) <==> Asks(answers, w, i)
    {
      hide WellFormed, Threads;
      ThreadsDistinct(machine);
      var t, allocs := Threads(machine)[i], Decoded(answers);
      forall k | 0 <= k < |answers|
        ensures answers[k] in answers && allocs[k].id == answers[k].id
        ensures t in allocs[k].threadIds <==> i in answers[k].positions
      {
        ListedIff(answers[k].positions, i);
      }
      if w in Claimants(allocs, t) {
        var k :| 0 <= k < |allocs| && t in allocs[k].threadIds && allocs[k].id == w;
        assert Asks(answers, w, i);
      }
      if Asks(answers, w, i) {
        var k :| 0 <= k < |answers| && answers[k].id == w && i in answers[k].positions;
        assert allocs[k] in allocs;
      }
    }

    lemma ListedIff(positions: seq<nat>, i: nat)
      requires NoDup(Threads(machine)) && Known(positions) && i < |Threads(machine)|
      ensures Threads(machine)[i] in Translate(positions) <==> i in positions
    {
      hide Threads;
      var ids := Translate(positions);
      if i in positions {
        var k :| 0 <= k < |positions| && positions[k] == i;
        assert ids[k] == Threads(machine)[i];
      }
      if Threads(machine)[i] in ids {
        var k :| 0 <= k < |ids| && ids[k] == Threads(machine)[i];
        assert positions[k] in positions && positions[k] == i;
      }
    }

    lemma TranslatedOnce(positions: seq<nat>)
      requires NoDup(Threads(machine)) && Known(positions)
      ensures NoDup(Translate(positions)) <==> NoDup(positions)
    {
      hide Threads;
      var ids := Translate(positions);
      forall j, k | 0 <= j < k < |positions| ensures ids[j] == ids[k] <==> positions[j] == positions[k] {
        assert positions[j] in positions && positions[k] in positions;
      }
    }

    /**
      A decoded response answers for exactly what it claims, which is all that coherence asks of it, if and only if
      no answer repeats a position.
     */
    lemma DecodedListsIff(answers: seq<CpusetAnswer>, pl: Placement)
      requires Valid() && AllKnown(answers) && DistinctAnswers(answers) && Answers(answers, pl)
      ensures Lists(Response(pl, Decoded(answers))) <==> forall a :: a in answers ==> NoDup(a.positions)
    {
      hide WellFormed, Threads, NoDup, Translate;
      ThreadsDistinct(machine);
      var allocs := Decoded(answers);
      forall k | 0 <= k < |answers|
        ensures answers[k] in answers && allocs[k] in allocs && allocs[k] == DecodedOne(answers[k])
        ensures NoDup(allocs[k].threadIds) <==> NoDup(answers[k].positions)
        ensures ToSet(allocs[k].threadIds) == HeldBy(pl, allocs[k].id)
      {
        TranslatedOnce(answers[k].positions);
        DecodedHolds(answers, pl, k);
      }
      forall v | v in WorkloadsOn(pl) ensures exists a :: a in allocs && a.id == v {
        var k := AnswerOf(answers, pl, v);
        assert allocs[k] in allocs;
      }
      assert forall k :: 0 <= k < |answers| ==> allocs[k].id == answers[k].id;
    }

    lemma DecodedHolds(answers: seq<CpusetAnswer>, pl: Placement, k: nat)
      requires Valid() && AllKnown(answers) && DistinctAnswers(answers) && Answers(answers, pl) && k < |answers|
      ensures ToSet(Decoded(answers)[k].threadIds) == HeldBy(pl, answers[k].id)
    {
      hide WellFormed, Threads, Translate, Known;
      ThreadsDistinct(machine);
      var ts, a := Threads(machine), answers[k];
      assert a in answers;
      var ids := Translate(a.positions);
      TranslatedWithin(a.positions);
      forall t | t in ToSet(ts) ensures t in ids <==> t in HeldBy(pl, a.id) {
        var i :| 0 <= i < |ts| && ts[i] == t;
        ListedIff(a.positions, i);
        if Asks(answers, a.id, i) {
          var j :| 0 <= j < |answers| && answers[j].id == a.id && i in answers[j].positions;
          assert j == k;
        }
      }
    }

    lemma TranslatedWithin(positions: seq<nat>)
      requires Known(positions)
      ensures ToSet(Translate(positions)) <= ToSet(Threads(machine))
    {
      hide Threads;
      forall k | 0 <= k < |positions| ensures Translate(positions)[k] in ToSet(Threads(machine)) {
        assert positions[k] in positions;
      }
    }

    lemma AnswerOf(answers: seq<CpusetAnswer>, pl: Placement, v: Id) returns (k: nat)
      requires Answers(answers, pl) && v in WorkloadsOn(pl)
      ensures k < |answers| && answers[k].id == v
    {
      hide Threads;
      var t :| t in pl && v in pl[t];
      assert t in ToSet(Threads(machine));
      var i :| 0 <= i < |Threads(machine)| && Threads(machine)[i] == t;
      assert Asks(answers, v, i);
      k :| 0 <= k < |answers| && answers[k].id == v && i in answers[k].positions;
    }

    /** The answers repeat the layout sent for this placement, workload by workload. */
    ghost predicate Repeat(answers: seq<CpusetAnswer>, pl: Placement)
      requires SentPackages(machine, pl, original2natural).Success?
    {
      forall i: nat, w ::
        Asks(answers, w, i) <==> LayoutNames(SentPackages(machine, pl, original2natural).value, i, w)
    }

    /** The workload is on the thread at this position. */
    ghost predicate IsAt(pl: Placement, i: nat, w: Id) {
      i < |Threads(machine)| && Threads(machine)[i] in pl && w in pl[Threads(machine)[i]]
    }

    /** Encoding any placement on the machine succeeds, and names a workload where it is and nowhere else. */
    lemma LayoutSent(pl: Placement)
      requires Valid() && Covers(machine, pl)
      ensures SentPackages(machine, pl, original2natural).Success?
      ensures forall i: nat, w ::
                LayoutNames(SentPackages(machine, pl, original2natural).value, i, w) <==> IsAt(pl, i, w)
    {
      hide SentPackages, LayoutNames, WellFormed, Carries, Threads;
      AllNumbered();
      PackagesSent(machine, pl, original2natural, 0, "");
      forall i: nat, w
        ensures LayoutNames(SentPackages(machine, pl, original2natural).value, i, w) <==> IsAt(pl, i, w)
      {
        PackagesSent(machine, pl, original2natural, i, w);
        if i < |Threads(machine)| { CarriedHere(pl, i, w); } else { CarriedNowhere(pl, i, w); }
      }
    }

    lemma CarriedNowhere(pl: Placement, i: nat, w: Id)
      requires Valid() && i >= |Threads(machine)|
      ensures !exists p :: p in machine && Carries(p.Threads(), pl, original2natural, i, w)
    {
      hide WellFormed, Threads;
      forall p, t | p in machine && t in p.Threads() && t in original2natural ensures original2natural[t] != i {
        assert t in ToSet(Threads(machine));
        var j :| 0 <= j < |Threads(machine)| && Threads(machine)[j] == t;
      }
    }

    /**
      The round trip: the layout sent for any placement on the machine, read as per-workload answers, has no unknown
      position, so decoding it succeeds, and decodes to that very placement.
     */
    lemma LayoutRoundTrip(pl: Placement, answers: seq<CpusetAnswer>, decoded: Placement)
      requires Valid() && Covers(machine, pl)
      requires SentPackages(machine, pl, original2natural).Success? ==> Repeat(answers, pl)
      ensures SentPackages(machine, pl, original2natural).Success?
      ensures AllKnown(answers)
      ensures Answers(answers, decoded) ==> decoded == pl
    {
      hide SentPackages, LayoutNames, WellFormed, Threads, Asks;
      LayoutSent(pl);
      forall a, i | a in answers && i in a.positions ensures i < |Threads(machine)| {
        AsksFor(answers, a, i);
      }
      if Answers(answers, decoded) {
        forall t, w | t in pl ensures t in decoded && (w in decoded[t] <==> w in pl[t]) {
          assert t in ToSet(Threads(machine));
          var i :| 0 <= i < |Threads(machine)| && Threads(machine)[i] == t;
          assert Asks(answers, w, i) <==> IsAt(pl, i, w);
        }
        SamePlacement(pl, decoded);
      }
    }

    lemma AsksFor(answers: seq<CpusetAnswer>, a: CpusetAnswer, i: nat)
      requires a in answers && i in a.positions
      ensures Asks(answers, a.id, i)
    {
    }

    /** Such answers exist, one for each workload on the CPU, and none repeats a position. */
    lemma AnswersExist(pl: Placement, flags: Flags) returns (answers: seq<CpusetAnswer>)
      requires Valid() && Covers(machine, pl)
      ensures SentPackages(machine, pl, original2natural).Success? && Repeat(answers, pl)
      ensures DistinctAnswers(answers) && forall a :: a in answers ==> NoDup(a.positions)
    {
      hide SentPackages, LayoutNames, WellFormed, Threads, Asks, PositionsOf;
      LayoutSent(pl);
      answers := [];
      assert forall i: nat, w :: !Asks(answers, w, i) by { NobodyAsks(); }
      var todo := WorkloadsOn(pl);
      while todo != {}
        invariant todo <= WorkloadsOn(pl) && DistinctAnswers(answers)
        invariant forall a :: a in answers ==> a.id in WorkloadsOn(pl) - todo && NoDup(a.positions)
        invariant forall i: nat, w :: Asks(answers, w, i) <==> w in WorkloadsOn(pl) - todo && IsAt(pl, i, w)
        decreases |todo|
      {
        var w :| w in todo;
        var positions := PositionsOf(pl, w, |Threads(machine)|);
        PositionsListed(pl, w, |Threads(machine)|);
        OneMoreAnswer(answers, CpusetAnswer(w, positions, 0, 0, flags));
        answers := answers + [CpusetAnswer(w, positions, 0, 0, flags)];
        todo := todo - {w};
      }
      assert forall i: nat, w :: IsAt(pl, i, w) ==> w in WorkloadsOn(pl);
    }

    lemma NobodyAsks()
      ensures forall i: nat, w :: !Asks([], w, i)
    {
    }

    lemma OneMoreAnswer(answers: seq<CpusetAnswer>, a: CpusetAnswer)
      requires forall b :: b in answers ==> b.id != a.id
      ensures forall i: nat, w ::
                Asks(answers + [a], w, i) <==> Asks(answers, w, i) || (w == a.id && i in a.positions)
      ensures DistinctAnswers(answers) ==> DistinctAnswers(answers + [a])
    {
      assert forall b :: b in answers + [a] <==> b in answers || b == a;
      forall j | 0 <= j < |answers| ensures answers[j].id != a.id {
        assert answers[j] in answers;
      }
    }

    /** The positions below `n` of the threads that `w` holds. */
    ghost function PositionsOf(pl: Placement, w: Id, n: nat): seq<nat>
      requires n <= |Threads(machine)|
    {
      if n == 0 then [] else
        var t := Threads(machine)[n - 1];
        PositionsOf(pl, w, n - 1) + (if t in pl && w in pl[t] then [n - 1] else [])
    }

    lemma {:induction false} PositionsListed(pl: Placement, w: Id, n: nat)
      requires n <= |Threads(machine)|
      ensures NoDup(PositionsOf(pl, w, n))
      ensures forall i: nat :: i in PositionsOf(pl, w, n) <==> i < n && IsAt(pl, i, w)
      decreases n
    {
      hide Threads;
      if n > 0 {
        PositionsListed(pl, w, n - 1);
        NoDupJoin(PositionsOf(pl, w, n - 1), [n - 1]);
      }
    }

    lemma AllNumbered()
      requires Valid()
      ensures forall p, t :: p in machine && t in p.Threads() ==> t in original2natural
    {
      hide WellFormed;
      forall p, t | p in machine && t in p.Threads() ensures t in original2natural {
        var k :| 0 <= k < |machine| && machine[k] == p;
        PackageWithin(machine, k);
      }
    }

    lemma SamePlacement(pl: Placement, pl': Placement)
      requires pl.Keys == pl'.Keys && forall t, w :: t in pl ==> (w in pl'[t] <==> w in pl[t])
      ensures pl' == pl
    {
      assert forall t :: t in pl ==> pl[t] == pl'[t];
    }

    lemma CarriedHere(pl: Placement, i: nat, w: Id)
      requires Valid() && Covers(machine, pl) && i < |Threads(machine)|
      ensures Threads(machine)[i] in pl
      ensures (exists p :: p in machine && Carries(p.Threads(), pl, original2natural, i, w)) <==>
              w in pl[Threads(machine)[i]]
    {
      hide WellFormed;
      var t := Threads(machine)[i];
      assert t in ToSet(Threads(machine));
      if w in pl[t] {
        var p := ThreadPackage(machine, t);
        assert machine[p] in machine && Carries(machine[p].Threads(), pl, original2natural, i, w);
      }
      forall p | p in machine && Carries(p.Threads(), pl, original2natural, i, w) ensures w in pl[t] {
        var u :| u in p.Threads() && u in original2natural && original2natural[u] == i && u in pl && w in pl[u];
        assert u in ToSet(Threads(machine));
        var j :| 0 <= j < |Threads(machine)| && Threads(machine)[j] == u;
      }
    }
  }

  /** What `threads_per_core` is left at: the size of the last core of the last package. */
  function LastCoreSize(shape: Shape): nat {
    if shape == [] || shape[|shape| - 1].cores == [] then 0
    else |shape[|shape| - 1].cores[|shape[|shape| - 1].cores| - 1].threads|
  }

  lemma LastCoreOf(cpu: Cpu)
    requires cpu.Valid()
    ensures |cpu.shape| > 0 && |cpu.shape[|cpu.shape| - 1].cores| > 0
    ensures var cores := cpu.shape[|cpu.shape| - 1].cores;
            LastCoreSize(cpu.shape) == |cores[|cores| - 1].threads|
  {
  }

  lemma LastCore(shape: Shape, p: nat)
    requires p < |shape|
    ensures LastCoreSize(shape[..p + 1]) ==
            if shape[p].cores == [] then 0 else |shape[p].cores[|shape[p].cores| - 1].threads|
  {
    assert shape[..p + 1][p] == shape[p];
  }

  function Claimants(allocs: seq<Allocation>, t: nat): set<Id> {
    set a | a in allocs && t in a.threadIds :: a.id
  }

  /** The answer of `w` has position `i`. */
  ghost predicate Asks(answers: seq<CpusetAnswer>, w: Id, i: nat) {
    exists a :: a in answers && a.id == w && i in a.positions
  }

  /** The keys of a protobuf map. */
  ghost predicate DistinctAnswers(answers: seq<CpusetAnswer>) {
    forall j, k :: 0 <= j < k < |answers| ==> answers[j].id != answers[k].id
  }

  lemma ThreadsDistinct(shape: Shape)
    requires WellFormed(shape)
    ensures NoDup(Threads(shape))
  {
  }

  lemma NothingSent(pl: Placement, natural: map<nat, nat>)
    ensures forall shape: Shape :: SentPackages(shape[..0], pl, natural) == Success([])
  {
  }

  lemma OneMorePackage(shape: Shape, pl: Placement, natural: map<nat, nat>, p: nat)
    requires p < |shape| && SentPackages(shape[..p], pl, natural).Success?
    ensures var cores := SentCores(shape[p].cores, pl, natural);
            var before := SentPackages(shape[..p], pl, natural).value;
            SentPackages(shape[..p + 1], pl, natural) ==
            if cores.Failure? then Failure
            else Success(before + [LayoutPackage(shape[p].id, |shape[p].cores|, cores.value)])
  {
    assert shape[..p + 1][..p] == shape[..p];
  }

  lemma {:induction false} ThreadsFailed(ts: seq<nat>, pl: Placement, natural: map<nat, nat>, i: nat)
    requires i <= |ts| && SentThreads(ts[..i], pl, natural).Failure?
    ensures SentThreads(ts, pl, natural).Failure?
    decreases |ts| - i
  {
    if i == |ts| {
      WholePrefix(ts);
    } else {
      assert ts[..i + 1][..i] == ts[..i];
      ThreadsFailed(ts, pl, natural, i + 1);
    }
  }

  lemma {:induction false} CoresFailed(cores: seq<Core>, pl: Placement, natural: map<nat, nat>, i: nat)
    requires i <= |cores| && SentCores(cores[..i], pl, natural).Failure?
    ensures SentCores(cores, pl, natural).Failure?
    decreases |cores| - i
  {
    if i == |cores| {
      WholePrefix(cores);
    } else {
      assert cores[..i + 1][..i] == cores[..i];
      CoresFailed(cores, pl, natural, i + 1);
    }
  }

  lemma {:induction false} PackagesFailed(shape: Shape, pl: Placement, natural: map<nat, nat>, i: nat)
    requires i <= |shape| && SentPackages(shape[..i], pl, natural).Failure?
    ensures SentPackages(shape, pl, natural).Failure?
    decreases |shape| - i
  {
    if i == |shape| {
      WholePrefix(shape);
    } else {
      assert shape[..i + 1][..i] == shape[..i];
      PackagesFailed(shape, pl, natural, i + 1);
    }
  }
}
