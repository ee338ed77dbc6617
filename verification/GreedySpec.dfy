/** What the greedy allocator takes and places, as functions of the processor and the threads still empty. */
module GreedySpec {
  import opened Collections
  import opened Bins
  import opened Topology

  /** `len(get_empty_threads()) > 0`. */
  predicate HasRoom(ts: seq<nat>, e: set<nat>) { ToSet(ts) * e != {} }

  function CoreRoom(pkg: Package, e: set<nat>): (r: seq<nat>)
    ensures |r| == |pkg.cores|
  {
    seq(|pkg.cores|, c requires 0 <= c < |pkg.cores| => |Keep(pkg.cores[c].threads, e)|)
  }

  function PackageRoom(shape: Shape, e: set<nat>): (r: seq<nat>)
    ensures |r| == |shape|
  {
    seq(|shape|, p requires 0 <= p < |shape| => |Keep(shape[p].Threads(), e)|)
  }

  lemma EmptiestCoreHasRoom(pkg: Package, e: set<nat>)
    requires HasRoom(pkg.Threads(), e)
    ensures |pkg.cores| > 0 && CoreRoom(pkg, e)[Largest(CoreRoom(pkg, e))] > 0
  {
    var t: nat :| t in ToSet(pkg.Threads()) * e;
    var c := ThreadCore(pkg, t);
    KeepFacts(pkg.cores[c].threads, e);
    assert t in ToSet(Keep(pkg.cores[c].threads, e));
    assert CoreRoom(pkg, e)[c] > 0;
  }

  lemma EmptiestPackageHasRoom(shape: Shape, e: set<nat>)
    requires HasRoom(Threads(shape), e)
    ensures |shape| > 0 && HasRoom(shape[Largest(PackageRoom(shape, e))].Threads(), e)
  {
    var t: nat :| t in ToSet(Threads(shape)) * e;
    var p := ThreadPackage(shape, t);
    KeepFacts(shape[p].Threads(), e);
    assert t in ToSet(Keep(shape[p].Threads(), e));
    assert PackageRoom(shape, e)[p] > 0;
    var room := Keep(shape[Largest(PackageRoom(shape, e))].Threads(), e);
    KeepFacts(shape[Largest(PackageRoom(shape, e))].Threads(), e);
    assert |room| > 0 && room[0] in ToSet(room);
  }

  /** The threads claimed inside one package: emptiest core first, until `k` are claimed or none is left. */
  function TakeFromPackage(pkg: Package, e: set<nat>, k: nat): (r: seq<nat>)
    ensures |r| <= k && ToSet(r) <= ToSet(pkg.Threads()) * e
    ensures k > 0 && HasRoom(pkg.Threads(), e) ==> |r| > 0
    decreases k
  {
    if k == 0 || !HasRoom(pkg.Threads(), e) then [] else
      EmptiestCoreHasRoom(pkg, e);
      var c := Largest(CoreRoom(pkg, e));
      var room := Keep(pkg.cores[c].threads, e);
      var now := room[..Min(k, |room|)];
      assert ToSet(now) <= ToSet(pkg.Threads()) * e by { TakenInPackage(pkg, e, c, now); }
      var rest := TakeFromPackage(pkg, e - ToSet(now), k - |now|);
      ToSetConcat(now, rest);
      now + rest
  }

  lemma TakenInPackage(pkg: Package, e: set<nat>, c: nat, now: seq<nat>)
    requires c < |pkg.cores| && now <= Keep(pkg.cores[c].threads, e)
    ensures ToSet(now) <= ToSet(pkg.Threads()) * e
  {
    KeepFacts(pkg.cores[c].threads, e);
    forall t | t in now ensures t in pkg.Threads() && t in e {
      assert t in ToSet(Keep(pkg.cores[c].threads, e));
      FlattenMember(pkg.CoreThreads(), c, t);
    }
  }

  /** The threads claimed for a request of `k`: emptiest package first, until `k` are claimed or the CPU is full. */
  function Take(shape: Shape, e: set<nat>, k: nat): (r: seq<nat>)
    ensures |r| <= k && ToSet(r) <= ToSet(Threads(shape)) * e
    decreases k
  {
    if k == 0 || !HasRoom(Threads(shape), e) then [] else
      EmptiestPackageHasRoom(shape, e);
      var p := Largest(PackageRoom(shape, e));
      var now := TakeFromPackage(shape[p], e, k);
      PackageWithin(shape, p);
      var rest := Take(shape, e - ToSet(now), k - |now|);
      ToSetConcat(now, rest);
      now + rest
  }

  /** Inside a core the threads are claimed in their order. */
  lemma {:induction false} CoreInOrder(pkg: Package, e: set<nat>, k: nat, c: nat, i: nat, j: nat)
    requires NoDup(pkg.Threads()) && c < |pkg.cores| && i < j < |pkg.cores[c].threads|
    requires pkg.cores[c].threads[i] in e && pkg.cores[c].threads[j] in TakeFromPackage(pkg, e, k)
    ensures pkg.cores[c].threads[i] in TakeFromPackage(pkg, e, k)
    decreases k
  {
    hide HasRoom, Largest, Keep;
    EmptiestCoreHasRoom(pkg, e);
    var d := Largest(CoreRoom(pkg, e));
    var room := Keep(pkg.cores[d].threads, e);
    var now := room[..Min(k, |room|)];
    var rest := TakeFromPackage(pkg, e - ToSet(now), k - |now|);
    TakenInPackage(pkg, e, d, now);
    CoreGeometry(pkg);
    if pkg.cores[c].threads[j] in now {
      KeepFacts(pkg.cores[d].threads, e);
      assert pkg.cores[c].threads[j] in ToSet(room);
      KeepInOrder(pkg.cores[d].threads, e, Min(k, |room|), i, j);
    } else if pkg.cores[c].threads[i] !in now {
      CoreInOrder(pkg, e - ToSet(now), k - |now|, c, i, j);
    }
  }

  /** So of the empty threads of a core, those claimed come before those left. */
  lemma {:induction false} TakesInOrder(shape: Shape, e: set<nat>, k: nat, p: nat, c: nat, i: nat, j: nat)
    requires WellFormed(shape) && p < |shape| && c < |shape[p].cores| && i < j < |shape[p].cores[c].threads|
    requires shape[p].cores[c].threads[i] in e && shape[p].cores[c].threads[j] in Take(shape, e, k)
    ensures shape[p].cores[c].threads[i] in Take(shape, e, k)
    decreases k
  {
    hide HasRoom, Largest, PackageRoom, TakeFromPackage, WellFormed;
    EmptiestPackageHasRoom(shape, e);
    var q := Largest(PackageRoom(shape, e));
    var now := TakeFromPackage(shape[q], e, k);
    ThreadGeometry(shape);
    CoreGeometry(shape[p]);
    var ts := shape[p].cores[c].threads;
    if ts[j] in now {
      assert ts[j] in ToSet(ts) && ts[j] in ToSet(now);
      assert ts[j] in ToSet(shape[p].Threads()) * ToSet(shape[q].Threads());
      CoreInOrder(shape[p], e, k, c, i, j);
    } else if ts[i] !in now {
      TakesInOrder(shape, e - ToSet(now), k - |now|, p, c, i, j);
    }
  }

  /** Emptiest package first, and inside every package emptiest core first. */
  ghost predicate GreedyChoice(shape: Shape, e: set<nat>, k: nat, taken: set<nat>) {
    && DrainsLargestFirst(PackageBins(shape, e), k, taken)
    && forall p :: 0 <= p < |shape| ==>
         var part := taken * ToSet(shape[p].Threads());
         DrainsLargestFirst(CoreBins(shape[p], e), |part|, part)
  }

  lemma CoreRoomIsSizes(pkg: Package, e: set<nat>)
    requires NoDup(pkg.Threads())
    ensures CoreRoom(pkg, e) == Sizes(CoreBins(pkg, e))
  {
    CoreGeometry(pkg);
    forall c | 0 <= c < |pkg.cores| ensures CoreRoom(pkg, e)[c] == Sizes(CoreBins(pkg, e))[c] {
      KeepFacts(pkg.cores[c].threads, e);
    }
  }

  lemma PackageRoomIsSizes(shape: Shape, e: set<nat>)
    requires WellFormed(shape)
    ensures PackageRoom(shape, e) == Sizes(PackageBins(shape, e))
  {
    ThreadGeometry(shape);
    forall p | 0 <= p < |shape| ensures PackageRoom(shape, e)[p] == Sizes(PackageBins(shape, e))[p] {
      KeepFacts(shape[p].Threads(), e);
    }
  }

  /** The emptiest core, seen as the largest bin. */
  lemma EmptiestCoreIsLargestBin(pkg: Package, e: set<nat>)
    requires NoDup(pkg.Threads()) && HasRoom(pkg.Threads(), e)
    ensures |pkg.cores| > 0
    ensures var bins := CoreBins(pkg, e);
            var c := Largest(CoreRoom(pkg, e));
            var room := Keep(pkg.cores[c].threads, e);
            && Disjoint(bins) && c == LargestBin(bins)
            && NoDup(room) && ToSet(room) == bins[c] && |room| == |bins[c]| > 0
            && bins[c] <= ToSet(pkg.Threads()) * e
            && bins[c := {}] == CoreBins(pkg, e - ToSet(room))
  {
    EmptiestCoreHasRoom(pkg, e);
    CoreRoomIsSizes(pkg, e);
    CoreBinsCover(pkg, e);
    CoreGeometry(pkg);
    var c := Largest(CoreRoom(pkg, e));
    KeepFacts(pkg.cores[c].threads, e);
    CoreBinsAfter(pkg, e, c);
  }

  /** What a claim inside one package amounts to: `k` threads or all there are, emptiest core first. */
  ghost predicate PackageDrained(pkg: Package, e: set<nat>, k: nat, r: seq<nat>) {
    && NoDup(r) && |r| == Min(k, |ToSet(pkg.Threads()) * e|)
    && DrainsLargestFirst(CoreBins(pkg, e), |r|, ToSet(r))
  }

  lemma TakePartOfCore(pkg: Package, e: set<nat>, k: nat)
    requires NoDup(pkg.Threads()) && HasRoom(pkg.Threads(), e) && |pkg.cores| > 0
    requires 0 < k <= |Keep(pkg.cores[Largest(CoreRoom(pkg, e))].threads, e)|
    ensures PackageDrained(pkg, e, k, TakeFromPackage(pkg, e, k))
  {
    EmptiestCoreIsLargestBin(pkg, e);
    var c := Largest(CoreRoom(pkg, e));
    var room := Keep(pkg.cores[c].threads, e);
    var now := room[..k];
    TakenFromBin(pkg, e, c, now);
    assert TakeFromPackage(pkg, e, k) == now + TakeFromPackage(pkg, e - ToSet(now), 0) == now;
    DrainHead(CoreBins(pkg, e), now);
    SubsetCard(ToSet(room), ToSet(pkg.Threads()) * e);
  }

  lemma TakeWholeCore(pkg: Package, e: set<nat>, k: nat)
    requires HasRoom(pkg.Threads(), e) && |pkg.cores| > 0
    requires |Keep(pkg.cores[Largest(CoreRoom(pkg, e))].threads, e)| < k
    ensures var room := Keep(pkg.cores[Largest(CoreRoom(pkg, e))].threads, e);
            TakeFromPackage(pkg, e, k) == room + TakeFromPackage(pkg, e - ToSet(room), k - |room|)
  {
    var room := Keep(pkg.cores[Largest(CoreRoom(pkg, e))].threads, e);
    assert room[..Min(k, |room|)] == room;
  }

  lemma DrainCore(pkg: Package, e: set<nat>, k: nat, room: seq<nat>, rest: seq<nat>)
    requires NoDup(pkg.Threads()) && HasRoom(pkg.Threads(), e) && |pkg.cores| > 0
    requires room == Keep(pkg.cores[Largest(CoreRoom(pkg, e))].threads, e)
    requires PackageDrained(pkg, e - ToSet(room), k, rest)
    ensures PackageDrained(pkg, e, |room| + k, room + rest)
  {
    EmptiestCoreIsLargestBin(pkg, e);
    DrainCons(CoreBins(pkg, e), room, rest);
    FreeAfter(ToSet(pkg.Threads()), e, room);
  }

  lemma FreeAfter(ts: set<nat>, e: set<nat>, now: seq<nat>)
    requires NoDup(now) && ToSet(now) <= ts * e
    ensures |ts * e| == |now| + |ts * (e - ToSet(now))|
  {
    NoDupCard(now);
    assert ts * (e - ToSet(now)) == ts * e - ToSet(now);
    SubsetCard(ToSet(now), ts * e);
  }

  lemma TakeNothingFromPackage(pkg: Package, e: set<nat>, k: nat)
    requires k == 0 || !HasRoom(pkg.Threads(), e)
    ensures PackageDrained(pkg, e, k, TakeFromPackage(pkg, e, k))
  {
    assert TakeFromPackage(pkg, e, k) == [] && ToSet<nat>([]) == {};
  }

  lemma {:induction false} TakeFromPackageDrains(pkg: Package, e: set<nat>, k: nat)
    requires NoDup(pkg.Threads())
    ensures PackageDrained(pkg, e, k, TakeFromPackage(pkg, e, k))
    decreases k
  {
    hide *;
    if k == 0 || !HasRoom(pkg.Threads(), e) {
      TakeNothingFromPackage(pkg, e, k);
    } else {
      EmptiestCoreHasRoom(pkg, e);
      var room := Keep(pkg.cores[Largest(CoreRoom(pkg, e))].threads, e);
      if k <= |room| {
        TakePartOfCore(pkg, e, k);
      } else {
        TakeWholeCore(pkg, e, k);
        EmptiestCoreIsLargestBin(pkg, e);
        TakeFromPackageDrains(pkg, e - ToSet(room), k - |room|);
        DrainCore(pkg, e, k - |room|, room, TakeFromPackage(pkg, e - ToSet(room), k - |room|));
      }
    }
  }

  lemma TakenFromBin(pkg: Package, e: set<nat>, c: nat, now: seq<nat>)
    requires c < |pkg.cores| && now <= Keep(pkg.cores[c].threads, e)
    ensures ToSet(now) <= CoreBins(pkg, e)[c]
  {
    KeepFacts(pkg.cores[c].threads, e);
    forall t | t in now ensures t in ToSet(Keep(pkg.cores[c].threads, e)) {
    }
  }

  lemma CoreBinsAfter(pkg: Package, e: set<nat>, c: nat)
    requires NoDup(pkg.Threads()) && c < |pkg.cores|
    ensures CoreBins(pkg, e - CoreBins(pkg, e)[c]) == CoreBins(pkg, e)[c := {}]
  {
    CoreBinsCover(pkg, e);
    var after := CoreBins(pkg, e - CoreBins(pkg, e)[c]);
    forall d | 0 <= d < |pkg.cores| ensures after[d] == CoreBins(pkg, e)[c := {}][d] {
      if d != c { assert CoreBins(pkg, e)[c] !! CoreBins(pkg, e)[d]; }
    }
  }

  // ---- the same, one level up ----

  lemma BinsDisjoint(shape: Shape, e: set<nat>)
    requires WellFormed(shape)
    ensures Disjoint(PackageBins(shape, e))
  {
    ThreadGeometry(shape);
  }

  lemma PackageBinsAfter(shape: Shape, e: set<nat>, p: nat)
    requires WellFormed(shape) && p < |shape|
    ensures PackageBins(shape, e - PackageBins(shape, e)[p]) == PackageBins(shape, e)[p := {}]
  {
    BinsDisjoint(shape, e);
    var bins := PackageBins(shape, e);
    var after := PackageBins(shape, e - bins[p]);
    forall q | 0 <= q < |shape| ensures after[q] == bins[p := {}][q] {
      if q < p { assert bins[q] !! bins[p]; }
      if p < q { assert bins[p] !! bins[q]; }
      assert after[q] == bins[q] - bins[p];
    }
  }

  lemma CoreBinsElsewhere(shape: Shape, e: set<nat>, p: nat, q: nat)
    requires WellFormed(shape) && p < |shape| && q < |shape| && p != q
    ensures CoreBins(shape[q], e - PackageBins(shape, e)[p]) == CoreBins(shape[q], e)
  {
    ThreadGeometry(shape);
    CoreGeometry(shape[q]);
    var gone := PackageBins(shape, e)[p];
    forall c | 0 <= c < |shape[q].cores| ensures CoreBins(shape[q], e - gone)[c] == CoreBins(shape[q], e)[c] {
      assert ToSet(shape[q].cores[c].threads) !! gone;
    }
  }

  lemma {:induction false} EmptiestPackageIsLargestBin(shape: Shape, e: set<nat>)
    requires WellFormed(shape) && HasRoom(Threads(shape), e)
    ensures var bins := PackageBins(shape, e);
            var p := Largest(PackageRoom(shape, e));
            Disjoint(bins) && p == LargestBin(bins) && bins[p] != {} && bins[p] <= ToSet(Threads(shape)) * e
  {
    EmptiestPackageHasRoom(shape, e);
    PackageRoomIsSizes(shape, e);
    BinsDisjoint(shape, e);
    PackageWithin(shape, Largest(PackageRoom(shape, e)));
  }

  /** What placing one request amounts to: `k` threads or all there are, chosen greedily at both levels. */
  ghost predicate CpuDrained(shape: Shape, e: set<nat>, k: nat, r: seq<nat>) {
    && NoDup(r) && |r| == Min(k, |ToSet(Threads(shape)) * e|)
    && GreedyChoice(shape, e, |r|, ToSet(r))
  }

  /** A claim that the emptiest package can hold. */
  lemma DrainInOnePackage(shape: Shape, e: set<nat>, k: nat, now: seq<nat>)
    requires WellFormed(shape) && HasRoom(Threads(shape), e)
    requires var p := Largest(PackageRoom(shape, e));
             PackageDrained(shape[p], e, k, now) && ToSet(now) <= PackageBins(shape, e)[p]
    requires now != [] && |now| == k
    ensures CpuDrained(shape, e, k, now)
  {
    var p := Largest(PackageRoom(shape, e));
    EmptiestPackageIsLargestBin(shape, e);
    DrainHead(PackageBins(shape, e), now);
    FreeAfter(ToSet(Threads(shape)), e, now);
    forall q | 0 <= q < |shape|
      ensures var part := ToSet(now) * ToSet(shape[q].Threads());
              DrainsLargestFirst(CoreBins(shape[q], e), |part|, part)
    {
      NoDupCard(now);
      if q == p {
        assert ToSet(now) * ToSet(shape[q].Threads()) == ToSet(now);
      } else {
        ThreadGeometry(shape);
        assert ToSet(now) * ToSet(shape[q].Threads()) == {};
      }
    }
  }

  /** A claim that empties the emptiest package and goes on in the others. */
  lemma {:induction false} DrainPackage(shape: Shape, e: set<nat>, k: nat, now: seq<nat>, rest: seq<nat>)
    requires WellFormed(shape) && HasRoom(Threads(shape), e)
    requires var p := Largest(PackageRoom(shape, e));
             PackageDrained(shape[p], e, |now|, now) && ToSet(now) == PackageBins(shape, e)[p]
    requires CpuDrained(shape, e - ToSet(now), k, rest)
    ensures CpuDrained(shape, e, |now| + k, now + rest)
  {
    hide DrainsLargestFirst, WellFormed, NoDup, CoreBins, Touched, Within;
    var p := Largest(PackageRoom(shape, e));
    EmptiestPackageIsLargestBin(shape, e);
    PackageBinsAfter(shape, e, p);
    DrainCons(PackageBins(shape, e), now, rest);
    FreeAfter(ToSet(Threads(shape)), e, now);
    forall q | 0 <= q < |shape|
      ensures var part := ToSet(now + rest) * ToSet(shape[q].Threads());
              DrainsLargestFirst(CoreBins(shape[q], e), |part|, part)
    {
      DrainPackagePart(shape, e, now, rest, q);
    }
  }

  lemma {:induction false} DrainPackagePart(shape: Shape, e: set<nat>, now: seq<nat>, rest: seq<nat>, q: nat)
    requires WellFormed(shape) && HasRoom(Threads(shape), e) && q < |shape|
    requires var p := Largest(PackageRoom(shape, e));
             PackageDrained(shape[p], e, |now|, now) && ToSet(now) == PackageBins(shape, e)[p]
    requires GreedyChoice(shape, e - ToSet(now), |rest|, ToSet(rest))
    ensures var part := ToSet(now + rest) * ToSet(shape[q].Threads());
            DrainsLargestFirst(CoreBins(shape[q], e), |part|, part)
  {
    hide DrainsLargestFirst, WellFormed, HasRoom, NoDup, PackageBins, CoreBins, Touched, Within, Disjoint;
    var p := Largest(PackageRoom(shape, e));
    ToSetConcat(now, rest);
    if q == p {
      assert ToSet(now + rest) * ToSet(shape[q].Threads()) == ToSet(now) by {
        RestElsewhere(shape, e, p, rest);
        BinPlace(shape, e, p, q);
      }
      NoDupCard(now);
    } else {
      assert ToSet(now + rest) * ToSet(shape[q].Threads()) == ToSet(rest) * ToSet(shape[q].Threads()) by {
        BinPlace(shape, e, p, q);
      }
      CoreBinsElsewhere(shape, e, p, q);
    }
  }

  lemma BinPlace(shape: Shape, e: set<nat>, p: nat, q: nat)
    requires WellFormed(shape) && p < |shape| && q < |shape|
    ensures PackageBins(shape, e)[p] <= ToSet(shape[p].Threads())
    ensures p != q ==> PackageBins(shape, e)[p] !! ToSet(shape[q].Threads())
  {
    ThreadGeometry(shape);
  }

  lemma {:induction false} RestElsewhere(shape: Shape, e: set<nat>, p: nat, rest: seq<nat>)
    requires WellFormed(shape) && p < |shape|
    requires DrainsLargestFirst(PackageBins(shape, e - PackageBins(shape, e)[p]), |rest|, ToSet(rest))
    ensures ToSet(rest) !! ToSet(shape[p].Threads())
  {
    PackageBinsAfter(shape, e, p);
    var after := PackageBins(shape, e)[p := {}];
    DrainedFacts(after, |rest|, ToSet(rest));
    ThreadGeometry(shape);
    forall t | t in ToSet(rest) ensures t !in ToSet(shape[p].Threads()) {
      var q :| 0 <= q < |shape| && t in after[q];
      assert t in ToSet(shape[q].Threads()) && q != p;
    }
  }

  lemma {:induction false} TakeDrains(shape: Shape, e: set<nat>, k: nat)
    requires WellFormed(shape)
    ensures CpuDrained(shape, e, k, Take(shape, e, k))
    decreases k
  {
    hide *;
    if k == 0 || !HasRoom(Threads(shape), e) {
      TakeNothing(shape, e, k);
    } else {
      var now := TakeUnfolds(shape, e, k);
      if |now| == k {
        DrainInOnePackage(shape, e, k, now);
      } else {
        TakeDrains(shape, e - ToSet(now), k - |now|);
        DrainPackage(shape, e, k - |now|, now, Take(shape, e - ToSet(now), k - |now|));
      }
    }
  }

  lemma TakeUnfolds(shape: Shape, e: set<nat>, k: nat) returns (now: seq<nat>)
    requires WellFormed(shape) && k > 0 && HasRoom(Threads(shape), e)
    ensures var p := Largest(PackageRoom(shape, e));
            PackageDrained(shape[p], e, |now|, now) && ToSet(now) <= PackageBins(shape, e)[p]
    ensures 0 < |now| <= k
    ensures |now| == k ==> Take(shape, e, k) == now
    ensures |now| < k ==> ToSet(now) == PackageBins(shape, e)[Largest(PackageRoom(shape, e))]
    ensures |now| < k ==> Take(shape, e, k) == now + Take(shape, e - ToSet(now), k - |now|)
  {
    hide TakeFromPackage, NoDup, WellFormed, DrainsLargestFirst, Largest, HasRoom, Take;
    EmptiestPackageHasRoom(shape, e);
    var p := Largest(PackageRoom(shape, e));
    now := TakeFromPackage(shape[p], e, k);
    TakeOnce(shape, e, k);
    ThreadGeometry(shape);
    TakeFromPackageDrains(shape[p], e, k);
    NoDupCard(now);
    SubsetCard(ToSet(now), PackageBins(shape, e)[p]);
  }

  lemma {:induction false} TakeOnce(shape: Shape, e: set<nat>, k: nat)
    requires k > 0 && HasRoom(Threads(shape), e)
    ensures |shape| > 0
    ensures var now := TakeFromPackage(shape[Largest(PackageRoom(shape, e))], e, k);
            && Take(shape, e, k) == now + Take(shape, e - ToSet(now), k - |now|)
            && (|now| == k ==> Take(shape, e, k) == now)
            && |now| > 0 && ToSet(now) <= ToSet(shape[Largest(PackageRoom(shape, e))].Threads())
  {
    hide TakeFromPackage, HasRoom, PackageRoom, Largest;
    EmptiestPackageHasRoom(shape, e);
    var now := TakeFromPackage(shape[Largest(PackageRoom(shape, e))], e, k);
    assert Take(shape, e, k) == now + Take(shape, e - ToSet(now), k - |now|);
    if |now| == k { assert Take(shape, e - ToSet(now), 0) == []; }
  }

  lemma TakeNothing(shape: Shape, e: set<nat>, k: nat)
    requires WellFormed(shape) && (k == 0 || !HasRoom(Threads(shape), e))
    ensures CpuDrained(shape, e, k, Take(shape, e, k))
  {
    var r := Take(shape, e, k);
    assert r == [] && ToSet(r) == {};
    forall p | 0 <= p < |shape| ensures ToSet(r) * ToSet(shape[p].Threads()) == {} {
    }
  }
}
