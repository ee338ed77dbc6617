/** Shared cores and workloads spread over packages: what the detector counts, and how few greedy leaves behind. */
module Violations {
  import opened Collections
  import opened Bins
  import opened Topology
  import opened GreedySpec
  import opened GreedyPlacement

  type Position = (nat, nat)

  ghost function CoreAt(shape: Shape, x: Position): set<nat>
    requires IsCore(shape, x)
  {
    ToSet(shape[x.0].cores[x.1].threads)
  }

  ghost predicate IsCore(shape: Shape, x: Position) { x.0 < |shape| && x.1 < |shape[x.0].cores| }

  ghost function Cores(shape: Shape): set<Position> {
    set p: nat, c: nat | p < |shape| && c < |shape[p].cores| :: (p, c)
  }

  ghost predicate IsShared(shape: Shape, pl: Placement, x: Position)
    requires IsCore(shape, x)
  {
    |IdsOn(shape[x.0].cores[x.1].threads, pl)| > 1
  }

  /** The cores that `get_shared_core_violations` reports. */
  ghost function SharedCores(shape: Shape, pl: Placement): set<Position> {
    set x | x in Cores(shape) && IsShared(shape, pl, x)
  }

  /** The workloads that `get_cross_package_violations` reports. */
  ghost function CrossPackage(shape: Shape, pl: Placement): set<Id> {
    set w | w in WorkloadsOn(pl) && |PackagesTouched(shape, HeldBy(pl, w))| > 1
  }

  /** The workload has a claim on a thread of the core, of the package. */
  ghost predicate OnCore(core: Core, pl: Placement, w: Id) { exists t :: t in core.threads && t in pl && w in pl[t] }

  ghost predicate OnPackage(pkg: Package, pl: Placement, w: Id) {
    exists c :: 0 <= c < |pkg.cores| && OnCore(pkg.cores[c], pl, w)
  }

  ghost predicate OnTwoPackages(shape: Shape, pl: Placement, w: Id) {
    exists p, q :: 0 <= p < q < |shape| && OnPackage(shape[p], pl, w) && OnPackage(shape[q], pl, w)
  }

  /** A core is reported exactly when two different workloads have a claim on it. */
  lemma SharedIff(shape: Shape, pl: Placement, x: Position)
    requires IsCore(shape, x)
    ensures var core := shape[x.0].cores[x.1];
            x in SharedCores(shape, pl) <==> exists v, w :: v != w && OnCore(core, pl, v) && OnCore(core, pl, w)
  {
    var core := shape[x.0].cores[x.1];
    var ids := IdsOn(core.threads, pl);
    assert x in Cores(shape) by { assert (x.0, x.1) == x; }
    assert forall v :: v in ids <==> OnCore(core, pl, v);
    MoreThanOne(ids);
  }

  lemma MoreThanOne<T>(s: set<T>)
    ensures |s| > 1 <==> exists x, y :: x != y && x in s && y in s
  {
    if forall x, y :: x in s && y in s ==> x == y {
      AtMostOneCard(s);
    } else {
      var x, y :| x in s && y in s && x != y;
      SubsetCard({x, y}, s);
    }
  }

  /** A workload is reported as spread exactly when it has claims on two different packages. */
  lemma CrossIff(shape: Shape, pl: Placement, w: Id)
    ensures w in CrossPackage(shape, pl) <==> OnTwoPackages(shape, pl, w)
  {
    hide OnPackage, PackagesTouched, HeldBy;
    var touched := PackagesTouched(shape, HeldBy(pl, w));
    forall p: nat ensures p in touched <==> p < |shape| && OnPackage(shape[p], pl, w) {
      TouchedIffOn(shape, pl, w, p);
    }
    MoreThanOne(touched);
    if |touched| > 1 {
      var p: nat, q: nat :| p != q && p in touched && q in touched;
      SpreadIsOn(shape, pl, w, p);
      if p < q { assert OnPackage(shape[p], pl, w) && OnPackage(shape[q], pl, w); }
      if q < p { assert OnPackage(shape[q], pl, w) && OnPackage(shape[p], pl, w); }
    }
    if p, q :| 0 <= p < q < |shape| && OnPackage(shape[p], pl, w) && OnPackage(shape[q], pl, w) {
      SpreadIsOn(shape, pl, w, p);
      assert p in touched && q in touched;
    }
  }

  lemma TouchedIffOn(shape: Shape, pl: Placement, w: Id, p: nat)
    ensures p in PackagesTouched(shape, HeldBy(pl, w)) <==> p < |shape| && OnPackage(shape[p], pl, w)
  {
    if p < |shape| {
      if p in PackagesTouched(shape, HeldBy(pl, w)) {
        var t: nat :| t in ToSet(shape[p].Threads()) * HeldBy(pl, w);
        var c := ThreadCore(shape[p], t);
        assert OnCore(shape[p].cores[c], pl, w);
      }
      if OnPackage(shape[p], pl, w) {
        var c :| 0 <= c < |shape[p].cores| && OnCore(shape[p].cores[c], pl, w);
        var t :| t in shape[p].cores[c].threads && t in pl && w in pl[t];
        FlattenMember(shape[p].CoreThreads(), c, t);
        assert t in ToSet(shape[p].Threads()) * HeldBy(pl, w);
      }
    }
  }

  lemma SpreadIsOn(shape: Shape, pl: Placement, w: Id, p: nat)
    ensures p < |shape| && OnPackage(shape[p], pl, w) ==> w in WorkloadsOn(pl)
  {
  }

  // ---- shared cores ----

  ghost predicate IsPartlyEmpty(shape: Shape, e: set<nat>, x: Position)
    requires IsCore(shape, x)
  {
    CoreAt(shape, x) * e != {} && !(CoreAt(shape, x) <= e)
  }

  /** The cores already shared, and those where the next workload may still join another one. */
  ghost function Unsettled(shape: Shape, pl: Placement): set<Position> {
    set x | x in Cores(shape) && (IsShared(shape, pl, x) || IsPartlyEmpty(shape, EmptySet(pl), x))
  }

  /** A greedy choice leaves at most one of the cores it touches with an empty thread. */
  lemma {:induction false} OneOpenCore(shape: Shape, e: set<nat>, taken: set<nat>, x: Position, y: Position)
    requires WellFormed(shape) && e <= ToSet(Threads(shape)) && taken <= e
    requires GreedyChoice(shape, e, |taken|, taken)
    requires IsCore(shape, x) && IsCore(shape, y) && x != y
    requires CoreAt(shape, x) * taken != {} && CoreAt(shape, y) * taken != {}
    ensures CoreAt(shape, x) * e <= taken || CoreAt(shape, y) * e <= taken
  {
    hide DrainsLargestFirst, WellFormed, Disjoint, CoreAt, CoreBins;
    CoreInPackage(shape, e, x);
    CoreInPackage(shape, e, y);
    BinsCover(shape, e);
    if x.0 == y.0 {
      OneOpenCoreInPackage(shape, e, taken, x, y);
    } else {
      TouchesPackage(shape, e, taken, x);
      TouchesPackage(shape, e, taken, y);
      AtMostOneLeftOpen(PackageBins(shape, e), |taken|, taken, x.0, y.0);
    }
  }

  lemma OneOpenCoreInPackage(shape: Shape, e: set<nat>, taken: set<nat>, x: Position, y: Position)
    requires WellFormed(shape) && IsCore(shape, x) && IsCore(shape, y) && x != y && x.0 == y.0
    requires var part := taken * ToSet(shape[x.0].Threads());
             DrainsLargestFirst(CoreBins(shape[x.0], e), |part|, part)
    requires taken <= e && CoreAt(shape, x) * taken != {} && CoreAt(shape, y) * taken != {}
    ensures CoreAt(shape, x) * e <= taken || CoreAt(shape, y) * e <= taken
  {
    hide DrainsLargestFirst, WellFormed, Disjoint, CoreBins;
    CoreInPackage(shape, e, x);
    CoreInPackage(shape, e, y);
    var bins := CoreBins(shape[x.0], e);
    var part := taken * ToSet(shape[x.0].Threads());
    assert bins[x.1] * part == CoreAt(shape, x) * taken;
    assert bins[y.1] * part == CoreAt(shape, y) * taken;
    AtMostOneLeftOpen(bins, |part|, part, x.1, y.1);
  }

  lemma TouchesPackage(shape: Shape, e: set<nat>, taken: set<nat>, x: Position)
    requires IsCore(shape, x) && taken <= e && CoreAt(shape, x) * taken != {}
    requires CoreAt(shape, x) <= ToSet(shape[x.0].Threads())
    ensures x.0 in Touched(PackageBins(shape, e), taken)
  {
    var t: nat :| t in CoreAt(shape, x) * taken;
    assert t in PackageBins(shape, e)[x.0] * taken;
  }

  lemma CoreInPackage(shape: Shape, e: set<nat>, x: Position)
    requires WellFormed(shape) && IsCore(shape, x)
    ensures CoreAt(shape, x) <= ToSet(shape[x.0].Threads())
    ensures CoreAt(shape, x) * e <= PackageBins(shape, e)[x.0]
    ensures |CoreBins(shape[x.0], e)| == |shape[x.0].cores|
    ensures CoreBins(shape[x.0], e)[x.1] == CoreAt(shape, x) * e
    ensures Disjoint(CoreBins(shape[x.0], e))
  {
    ThreadGeometry(shape);
    CoreGeometry(shape[x.0]);
    CoreBinsCover(shape[x.0], e);
  }

  /** A core none of whose threads is claimed by the step reads the same before and after. */
  lemma IdsAfterClaim(ts: seq<nat>, pl: Placement, taken: set<nat>, w: Id)
    requires taken <= pl.Keys
    ensures ToSet(ts) * taken == {} ==> IdsOn(ts, Claim(pl, taken, w)) == IdsOn(ts, pl)
    ensures ToSet(ts) * taken != {} ==> IdsOn(ts, Claim(pl, taken, w)) == IdsOn(ts, pl) + {w}
  {
    var pl' := Claim(pl, taken, w);
    forall v | v in IdsOn(ts, pl') ensures v in IdsOn(ts, pl) || (v == w && ToSet(ts) * taken != {}) {
      var t :| t in ts && t in pl' && v in pl'[t];
      if v !in pl[t] { assert t in ToSet(ts) * taken; }
    }
    forall v | v in IdsOn(ts, pl) ensures v in IdsOn(ts, pl') {
      var t :| t in ts && t in pl && v in pl[t];
      assert v in pl'[t];
    }
    if ToSet(ts) * taken != {} {
      var t: nat :| t in ToSet(ts) * taken;
      assert w in pl'[t];
    }
  }

  /** No workload sits on a core exactly when the core is wholly empty. */
  lemma IdsOnEmpty(ts: seq<nat>, pl: Placement)
    requires ToSet(ts) <= pl.Keys
    ensures IdsOn(ts, pl) == {} <==> ToSet(ts) <= EmptySet(pl)
  {
    if IdsOn(ts, pl) == {} {
      forall t | t in ts ensures t in EmptySet(pl) {
        assert t in ToSet(ts);
        assert forall v :: v in pl[t] ==> v in IdsOn(ts, pl);
      }
    } else {
      var v :| v in IdsOn(ts, pl);
      var t :| t in ts && t in pl && v in pl[t];
      assert t in ToSet(ts) && t !in EmptySet(pl);
    }
  }

  /** A core that a step leaves newly unsettled was touched by the step and keeps an empty thread. */
  lemma NewlyUnsettled(shape: Shape, pl: Placement, taken: set<nat>, w: Id, x: Position)
    requires taken <= EmptySet(pl) && IsCore(shape, x) && CoreAt(shape, x) <= pl.Keys
    requires x in Unsettled(shape, Claim(pl, taken, w)) && x !in Unsettled(shape, pl)
    ensures CoreAt(shape, x) * taken != {} && !(CoreAt(shape, x) * EmptySet(pl) <= taken)
  {
    var ts := shape[x.0].cores[x.1].threads;
    IdsAfterClaim(ts, pl, taken, w);
    IdsOnEmpty(ts, pl);
    ClaimFacts(pl, taken, w);
    assert x in Cores(shape);
    assert CoreAt(shape, x) * EmptySet(Claim(pl, taken, w)) == CoreAt(shape, x) * EmptySet(pl) - taken;
  }

  /** Whoever shares a core after a step joined one that was already unsettled. */
  lemma SharedWasUnsettled(shape: Shape, pl: Placement, taken: set<nat>, w: Id, x: Position)
    requires taken <= EmptySet(pl) && IsCore(shape, x) && CoreAt(shape, x) <= pl.Keys
    requires IsShared(shape, Claim(pl, taken, w), x)
    ensures x in Unsettled(shape, pl)
  {
    var ts := shape[x.0].cores[x.1].threads;
    IdsAfterClaim(ts, pl, taken, w);
    IdsOnEmpty(ts, pl);
    assert x in Cores(shape);
    if !IsShared(shape, pl, x) {
      var t: nat :| t in CoreAt(shape, x) * taken;
      assert t in CoreAt(shape, x) * EmptySet(pl);
      assert IdsOn(ts, pl) == {} ==> IdsOn(ts, Claim(pl, taken, w)) == {w};
    }
  }

  lemma CoreCovered(shape: Shape, pl: Placement, x: Position)
    requires Covers(shape, pl) && IsCore(shape, x)
    ensures CoreAt(shape, x) <= pl.Keys
  {
    PackageWithin(shape, x.0);
    forall t | t in CoreAt(shape, x) ensures t in pl.Keys {
      FlattenMember(shape[x.0].CoreThreads(), x.1, t);
      assert t in ToSet(shape[x.0].Threads());
    }
  }

  /** One placement unsettles at most one more core. */
  lemma {:induction false} UnsettledStep(shape: Shape, pl: Placement, w: Workload)
    requires WellFormed(shape) && Covers(shape, pl)
    ensures |Unsettled(shape, Place(shape, pl, w).pl)| <= |Unsettled(shape, pl)| + 1
    ensures SharedCores(shape, Place(shape, pl, w).pl) <= Unsettled(shape, pl)
  {
    hide Place, GreedyChoice, Claim, WellFormed, IsShared, IsPartlyEmpty, Covers;
    PlaceFacts(shape, pl, w);
    var pl' := Place(shape, pl, w).pl;
    var taken := NewlyUsed(pl, pl');
    assert pl.Keys == ToSet(Threads(shape)) by { CoversKeys(shape, pl); }
    var grown := Unsettled(shape, pl') - Unsettled(shape, pl);
    forall x, y | x in grown && y in grown ensures x == y {
      CoreCovered(shape, pl, x);
      CoreCovered(shape, pl, y);
      NewlyUnsettled(shape, pl, taken, w.id, x);
      NewlyUnsettled(shape, pl, taken, w.id, y);
      if x != y { OneOpenCore(shape, EmptySet(pl), taken, x, y); }
    }
    AtMostOneCard(grown);
    UnionCard(Unsettled(shape, pl), grown);
    SubsetCard(Unsettled(shape, pl'), Unsettled(shape, pl) + grown);
    forall x | x in SharedCores(shape, pl') ensures x in Unsettled(shape, pl) {
      CoreCovered(shape, pl, x);
      SharedWasUnsettled(shape, pl, taken, w.id, x);
    }
  }

  lemma CoversKeys(shape: Shape, pl: Placement)
    requires Covers(shape, pl)
    ensures pl.Keys == ToSet(Threads(shape))
  {
  }

  lemma NothingUnsettled(shape: Shape, pl: Placement)
    requires Covers(shape, pl) && AllEmpty(pl)
    ensures Unsettled(shape, pl) == {} && SharedCores(shape, pl) == {}
  {
    forall x | x in Cores(shape) ensures !IsShared(shape, pl, x) && !IsPartlyEmpty(shape, EmptySet(pl), x) {
      CoreCovered(shape, pl, x);
      IdsOnEmpty(shape[x.0].cores[x.1].threads, pl);
    }
  }

  lemma {:induction false} UnsettledBound(shape: Shape, pl: Placement, ws: seq<Workload>)
    requires WellFormed(shape) && Covers(shape, pl) && AllEmpty(pl) && DistinctIds(ws)
    ensures var pl' := PlaceAll(shape, pl, ws).pl;
            |Unsettled(shape, pl')| <= |ws| && |SharedCores(shape, pl')| <= Max(|ws| - 1, 0)
    decreases |ws|
  {
    hide Unsettled, SharedCores, Place, WellFormed, AllEmpty, Covers;
    NothingUnsettled(shape, pl);
    if ws != [] {
      var n := |ws| - 1;
      IdsPrefix(ws);
      UnsettledBound(shape, pl, ws[..n]);
      PlaceAllAccounted(shape, pl, ws[..n]);
      var before := PlaceAll(shape, pl, ws[..n]);
      if before.Placed? {
        UnsettledStep(shape, before.pl, ws[n]);
        SubsetCard(SharedCores(shape, Place(shape, before.pl, ws[n]).pl), Unsettled(shape, before.pl));
      }
    }
  }

  /** Greedy placement of W workloads leaves at most W - 1 cores shared. */
  lemma GreedySharedCores(shape: Shape, pl: Placement, ws: seq<Workload>)
    requires WellFormed(shape) && Covers(shape, pl) && DistinctIds(ws)
    ensures |SharedCores(shape, GreedyIsolate(shape, pl, ws).pl)| <= Max(|ws| - 1, 0)
  {
    UnsettledBound(shape, Cleared(pl), ws);
  }

  // ---- workloads over several packages ----

  ghost function FullPackages(shape: Shape, e: set<nat>): set<nat> {
    set p | 0 <= p < |shape| && ToSet(shape[p].Threads()) * e == {}
  }

  /** At most one touched package keeps an empty thread. */
  lemma {:induction false} OneOpenPackage(shape: Shape, e: set<nat>, taken: set<nat>)
    requires WellFormed(shape) && e <= ToSet(Threads(shape)) && taken <= e
    requires GreedyChoice(shape, e, |taken|, taken)
    ensures |PackagesTouched(shape, taken) - FullPackages(shape, e - taken)| <= 1
  {
    hide DrainsLargestFirst, WellFormed, Disjoint, Within;
    var bins := PackageBins(shape, e);
    BinsCover(shape, e);
    TouchedPackages(shape, e, taken);
    var open := PackagesTouched(shape, taken) - FullPackages(shape, e - taken);
    forall p, q | p in open && q in open ensures p == q {
      if p != q { AtMostOneLeftOpen(bins, |taken|, taken, p, q); }
    }
    AtMostOneCard(open);
  }

  lemma TouchedWasNotFull(shape: Shape, e: set<nat>, taken: set<nat>)
    requires taken <= e
    ensures FullPackages(shape, e) !! PackagesTouched(shape, taken)
    ensures FullPackages(shape, e) <= FullPackages(shape, e - taken)
    ensures FullPackages(shape, e) + PackagesTouched(shape, taken) <= Below(|shape|)
  {
    forall p | p in PackagesTouched(shape, taken) ensures p !in FullPackages(shape, e) {
      var u: nat :| u in ToSet(shape[p].Threads()) * taken;
      assert u in ToSet(shape[p].Threads()) * e;
    }
    forall p | p in FullPackages(shape, e) ensures p in FullPackages(shape, e - taken) {
      assert ToSet(shape[p].Threads()) * (e - taken) <= ToSet(shape[p].Threads()) * e;
    }
  }

  /** A choice over several packages fills all of them but one, and none of them was full before. */
  lemma {:induction false} SpanningFills(shape: Shape, e: set<nat>, taken: set<nat>)
    requires WellFormed(shape) && e <= ToSet(Threads(shape)) && taken <= e
    requires GreedyChoice(shape, e, |taken|, taken)
    ensures |FullPackages(shape, e - taken)| >= |FullPackages(shape, e)|
    ensures |FullPackages(shape, e - taken)| >= |FullPackages(shape, e)| + |PackagesTouched(shape, taken)| - 1
    ensures |FullPackages(shape, e)| + |PackagesTouched(shape, taken)| <= |shape|
  {
    hide *;
    OneOpenPackage(shape, e, taken);
    TouchedWasNotFull(shape, e, taken);
    var full, full', touched := FullPackages(shape, e), FullPackages(shape, e - taken), PackagesTouched(shape, taken);
    SubsetCard(full, full');
    UnionCard(full, touched);
    SubsetCard(full + touched, Below(|shape|));
    SubsetCard(full + touched * full', full');
    UnionCard(full, touched * full');
    SubsetCard(touched * full', touched);
    assert touched - touched * full' == touched - full';
  }

  /** The workloads over several packages never outnumber the full packages, nor reach the package count. */
  ghost predicate CrossBounded(shape: Shape, pl: Placement) {
    && |CrossPackage(shape, pl)| <= |FullPackages(shape, EmptySet(pl))|
    && |CrossPackage(shape, pl)| <= |shape| - 1
  }

  lemma {:induction false} CrossStep(shape: Shape, pl: Placement, w: Workload)
    requires WellFormed(shape) && Covers(shape, pl) && HeldBy(pl, w.id) == {}
    requires CrossBounded(shape, pl)
    ensures CrossBounded(shape, Place(shape, pl, w).pl)
  {
    hide Place, GreedyChoice, WellFormed, Claim, PackagesTouched, FullPackages, HeldBy;
    PlaceFacts(shape, pl, w);
    var pl' := Place(shape, pl, w).pl;
    var e := EmptySet(pl);
    var taken := NewlyUsed(pl, pl');
    SpanningFills(shape, e, taken);
    CrossAfter(shape, pl, pl', w.id, taken);
    UnionCard(CrossPackage(shape, pl), {w.id});
    if |PackagesTouched(shape, taken)| > 1 {
      SubsetCard(CrossPackage(shape, pl'), CrossPackage(shape, pl) + {w.id});
    } else {
      SubsetCard(CrossPackage(shape, pl'), CrossPackage(shape, pl));
    }
  }

  lemma CrossAfter(shape: Shape, pl: Placement, pl': Placement, w: Id, taken: set<nat>)
    requires HeldBy(pl', w) == taken && forall v :: v != w ==> HeldBy(pl', v) == HeldBy(pl, v)
    ensures CrossPackage(shape, pl') <= CrossPackage(shape, pl) + {w}
    ensures |PackagesTouched(shape, taken)| <= 1 ==> CrossPackage(shape, pl') <= CrossPackage(shape, pl)
  {
    forall v | v in CrossPackage(shape, pl') && v != w ensures v in CrossPackage(shape, pl) {
      var t :| t in pl' && v in pl'[t];
      assert t in HeldBy(pl', v);
      assert t in HeldBy(pl, v);
    }
  }

  lemma NothingCrosses(shape: Shape, pl: Placement)
    requires WellFormed(shape) && AllEmpty(pl)
    ensures CrossBounded(shape, pl)
  {
    assert CrossPackage(shape, pl) == {};
  }

  lemma {:induction false} CrossBound(shape: Shape, pl: Placement, ws: seq<Workload>)
    requires WellFormed(shape) && Covers(shape, pl) && AllEmpty(pl) && DistinctIds(ws)
    ensures CrossBounded(shape, PlaceAll(shape, pl, ws).pl)
    decreases |ws|
  {
    hide CrossBounded, Place, WellFormed, AllEmpty, Covers, HeldBy;
    NothingCrosses(shape, pl);
    if ws != [] {
      var n := |ws| - 1;
      IdsPrefix(ws);
      CrossBound(shape, pl, ws[..n]);
      PlaceAllAccounted(shape, pl, ws[..n]);
      var before := PlaceAll(shape, pl, ws[..n]);
      if before.Placed? {
        CrossStep(shape, before.pl, ws[n]);
      }
    }
  }

  /** Greedy placement on P packages spreads at most P - 1 workloads over several packages. */
  lemma GreedyCrossPackage(shape: Shape, pl: Placement, ws: seq<Workload>)
    requires WellFormed(shape) && Covers(shape, pl) && DistinctIds(ws)
    ensures |CrossPackage(shape, GreedyIsolate(shape, pl, ws).pl)| <= |shape| - 1
  {
    CrossBound(shape, Cleared(pl), ws);
  }

  /** Once placed, a workload keeps its threads while the rest of the request is placed. */
  lemma {:induction false} HoldsFromPlacing(shape: Shape, pl: Placement, ws: seq<Workload>, i: nat, n: nat)
    requires WellFormed(shape) && Covers(shape, pl) && AllEmpty(pl) && DistinctIds(ws)
    requires i < n <= |ws| && PlaceAll(shape, pl, ws[..n]).Placed?
    ensures PlaceAll(shape, pl, ws[..i]).Placed? && PlaceAll(shape, pl, ws[..i + 1]).Placed?
    ensures HeldBy(PlaceAll(shape, pl, ws[..n]).pl, ws[i].id) == HeldBy(PlaceAll(shape, pl, ws[..i + 1]).pl, ws[i].id)
    decreases n
  {
    hide Place, WellFormed, AllEmpty, Covers, HeldBy;
    var m := n - 1;
    assert ws[..n][..m] == ws[..m];
    if i < m {
      HoldsFromPlacing(shape, pl, ws, i, m);
      PlaceAllAccounted(shape, pl, ws[..m]);
      PlaceFacts(shape, PlaceAll(shape, pl, ws[..m]).pl, ws[m]);
      assert ws[i].id != ws[m].id;
    }
  }

  /**
    After a successful call, a workload is reported as spread over packages exactly when, at the moment it was
    placed, it asked for more threads than any package had empty.
   */
  lemma GreedySpansIff(shape: Shape, pl: Placement, ws: seq<Workload>, i: nat)
    requires WellFormed(shape) && Covers(shape, pl) && DistinctIds(ws) && i < |ws|
    requires GreedyIsolate(shape, pl, ws).Placed?
    ensures ws[i].id in CrossPackage(shape, GreedyIsolate(shape, pl, ws).pl) <==>
            var found := PlaceAll(shape, Cleared(pl), ws[..i]).pl;
            ws[i].count > 0 && NoPackageFits(shape, EmptySet(found), ws[i].count)
  {
    hide Place, WellFormed, AllEmpty, Covers, HeldBy, PackagesTouched, NoPackageFits;
    var pl0 := Cleared(pl);
    ClearedFacts(shape, pl);
    WholePrefix(ws);
    HoldsFromPlacing(shape, pl0, ws, i, |ws|);
    PlaceAllAccounted(shape, pl0, ws[..i]);
    var found := PlaceAll(shape, pl0, ws[..i]).pl;
    assert ws[..i + 1][..i] == ws[..i];
    PlaceFacts(shape, found, ws[i]);
    SpansIffNoPackageFits(shape, found, ws[i]);
    assert ws[i].id !in Ids(ws[..i]);
    var pl' := GreedyIsolate(shape, pl, ws).pl;
    assert HeldBy(pl', ws[i].id) == NewlyUsed(found, Place(shape, found, ws[i]).pl);
    OnIffHeld(pl', ws[i].id);
    NoThreadNoPackage(shape);
  }

  lemma NoThreadNoPackage(shape: Shape)
    ensures PackagesTouched(shape, {}) == {}
  {
  }
}
