/** The greedy allocator as it runs: claims in place, package by package and core by core. */
module GreedyAllocator {
  import opened Collections
  import opened Bins
  import opened Topology
  import opened GreedySpec
  import opened GreedyPlacement
  import opened Processor

  /** Claims inside one package until the count is met or the package is full. */
  method FillPackage(cpu: Cpu, pkg: Package, w: Id, count: nat) returns (claimed: seq<nat>)
    requires cpu.Valid() && ToSet(pkg.Threads()) <= cpu.threads.Keys
    modifies cpu.objects
    ensures claimed == TakeFromPackage(pkg, EmptySet(old(cpu.State())), count)
    ensures cpu.State() == Claim(old(cpu.State()), ToSet(claimed), w)
  {
    hide *;
    var k: int := count;
    claimed := [];
    ghost var pl0 := cpu.State();
    ClaimNone(pl0, w);
    while k > 0 && |Keep(pkg.Threads(), EmptySet(cpu.State()))| > 0
      invariant 0 <= k <= count
      invariant cpu.State() == Claim(pl0, ToSet(claimed), w)
      invariant TakeFromPackage(pkg, EmptySet(pl0), count)
             == claimed + TakeFromPackage(pkg, EmptySet(cpu.State()), k)
      decreases k
    {
      ghost var before := cpu.State();
      HasRoomIfKept(pkg.Threads(), EmptySet(before));
      EmptiestCoreHasRoom(pkg, EmptySet(before));
      var c := cpu.EmptiestCore(pkg);
      var room := Keep(pkg.cores[c].threads, EmptySet(cpu.State()));
      var now := room[..Min(k, |room|)];
      UnfoldTake(pkg, EmptySet(before), k, c, now);
      MoreClaimed(pl0, before, claimed, now, w);
      cpu.ClaimThreads(now, w);
      k := k - |now|;
      Associate(claimed, now, TakeFromPackage(pkg, EmptySet(cpu.State()), k));
      claimed := claimed + now;
    }
    TakeNothingMore(pkg, EmptySet(cpu.State()), k);
  }

  lemma ClaimNone(pl: Placement, w: Id)
    ensures Claim(pl, ToSet<nat>([]), w) == pl
    ensures forall s: seq<nat> {:trigger ToSet(s)} :: [] + s == s
  {
  }

  lemma TakeNothingMore(pkg: Package, e: set<nat>, k: nat)
    requires k == 0 || |Keep(pkg.Threads(), e)| == 0
    ensures TakeFromPackage(pkg, e, k) == []
  {
    HasRoomIfKept(pkg.Threads(), e);
  }

  lemma MoreClaimed(pl0: Placement, pl: Placement, claimed: seq<nat>, now: seq<nat>, w: Id)
    requires pl == Claim(pl0, ToSet(claimed), w) && ToSet(now) <= pl.Keys
    ensures Claim(pl, ToSet(now), w) == Claim(pl0, ToSet(claimed + now), w)
    ensures EmptySet(Claim(pl, ToSet(now), w)) == EmptySet(pl) - ToSet(now)
  {
    ClaimFacts(pl, ToSet(now), w);
    ClaimTwice(pl0, ToSet(claimed), ToSet(now), w);
    ToSetConcat(claimed, now);
  }

  lemma Associate(a: seq<nat>, b: seq<nat>, c: seq<nat>)
    ensures a + (b + c) == (a + b) + c
  {
  }

  lemma HasRoomIfKept(ts: seq<nat>, e: set<nat>)
    ensures HasRoom(ts, e) <==> |Keep(ts, e)| > 0
  {
    KeepFacts(ts, e);
    if |Keep(ts, e)| > 0 {
      assert Keep(ts, e)[0] in ToSet(Keep(ts, e));
    } else {
      assert ToSet(Keep(ts, e)) == {};
    }
  }

  lemma UnfoldTake(pkg: Package, e: set<nat>, k: nat, c: nat, now: seq<nat>)
    requires k > 0 && HasRoom(pkg.Threads(), e) && |pkg.cores| > 0 && c == Largest(CoreRoom(pkg, e))
    requires var room := Keep(pkg.cores[c].threads, e); now == room[..Min(k, |room|)]
    ensures 0 < |now| <= k && ToSet(now) <= e && ToSet(now) <= ToSet(pkg.Threads())
    ensures TakeFromPackage(pkg, e, k) == now + TakeFromPackage(pkg, e - ToSet(now), k - |now|)
  {
    EmptiestCoreHasRoom(pkg, e);
    TakenInPackage(pkg, e, c, now);
  }

  /** `__assign_threads`: `ok` is false where the code raises because the CPU is full. */
  method AssignThreads(cpu: Cpu, w: Workload) returns (ok: bool, claimed: seq<nat>)
    requires cpu.Valid()
    modifies cpu.objects
    ensures claimed == Take(cpu.shape, EmptySet(old(cpu.State())), w.count)
    ensures cpu.State() == Claim(old(cpu.State()), ToSet(claimed), w.id)
    ensures ok == (|claimed| == w.count)
    decreases w.count
  {
    ghost var pl0 := cpu.State();
    ghost var e := EmptySet(pl0);
    hide *;
    cpu.ValidKeys();
    TakeFromFull(cpu.shape, pl0, w);
    HasRoomIfKept(Threads(cpu.shape), e);
    if w.count == 0 {
      return true, [];
    }
    if |Keep(Threads(cpu.shape), EmptySet(cpu.State()))| == 0 {
      return false, [];
    }
    TakeOnce(cpu.shape, e, w.count);
    var p := cpu.EmptiestPackage();
    PackageWithin(cpu.shape, p);
    var here := FillPackage(cpu, cpu.shape[p], w.id, w.count);
    ghost var pl1 := cpu.State();
    var k := w.count - |here|;
    var rest;
    ok, rest := AssignThreads(cpu, Workload(w.id, k));
    JoinTakes(cpu.shape, p, pl0, w, here, k, rest, pl1);
    claimed := here + rest;
  }

  lemma TakeFromFull(shape: Shape, pl: Placement, w: Workload)
    ensures Claim(pl, ToSet<nat>([]), w.id) == pl
    ensures w.count == 0 || !HasRoom(Threads(shape), EmptySet(pl)) ==> Take(shape, EmptySet(pl), w.count) == []
  {
  }

  lemma {:induction false} JoinTakes(shape: Shape, p: nat, pl0: Placement, w: Workload, here: seq<nat>, k: nat,
                                     rest: seq<nat>, pl1: Placement)
    requires w.count > 0 && HasRoom(Threads(shape), EmptySet(pl0)) && p < |shape|
    requires p == Largest(PackageRoom(shape, EmptySet(pl0)))
    requires pl0.Keys == ToSet(Threads(shape)) && pl1 == Claim(pl0, ToSet(here), w.id)
    requires here == TakeFromPackage(shape[p], EmptySet(pl0), w.count)
    requires |here| + k == w.count && rest == Take(shape, EmptySet(pl1), k)
    ensures here + rest == Take(shape, EmptySet(pl0), w.count)
    ensures Claim(pl1, ToSet(rest), w.id) == Claim(pl0, ToSet(here + rest), w.id)
  {
    hide *;
    TakeOnce(shape, EmptySet(pl0), w.count);
    PackageWithin(shape, p);
    ClaimFacts(pl0, ToSet(here), w.id);
    ClaimTwice(pl0, ToSet(here), ToSet(rest), w.id);
    ToSetConcat(here, rest);
  }

  method Isolate(cpu: Cpu, ws: seq<Workload>) returns (ok: bool)
    requires cpu.Valid()
    modifies cpu.objects
    ensures ok == GreedyIsolate(cpu.shape, old(cpu.State()), ws).Placed?
    ensures cpu.State() == GreedyIsolate(cpu.shape, old(cpu.State()), ws).pl
  {
    cpu.Clear();
    ghost var pl0 := cpu.State();
    for i := 0 to |ws|
      invariant PlaceAll(cpu.shape, pl0, ws[..i]) == Placed(cpu.State())
    {
      var claimed;
      assert ws[..i + 1][..i] == ws[..i];
      ok, claimed := AssignThreads(cpu, ws[i]);
      if !ok {
        RaisedStays(cpu.shape, pl0, ws, i + 1);
        return;
      }
    }
    assert ws[..|ws|] == ws;
    ok := true;
  }
}
