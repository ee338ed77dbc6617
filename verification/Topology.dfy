/**
  The processor as a value: packages of cores of hyper-threads, and a placement saying which workloads
  sit on each thread. Thread ids are unique across the CPU; a placement is keyed by them.
 */
module Topology {
  import opened Collections
  import opened Bins

  type Id = string

  datatype Core = Core(id: nat, threads: seq<nat>)

  datatype Package = Package(id: nat, cores: seq<Core>) {
    function CoreThreads(): seq<seq<nat>> {
      seq(|cores|, c requires 0 <= c < |cores| => cores[c].threads)
    }

    function Threads(): seq<nat> { Flatten(CoreThreads()) }
  }

  type Shape = seq<Package>
  type Placement = map<nat, set<Id>>

  datatype Workload = Workload(id: Id, count: nat)

  function PackageThreads(shape: Shape): seq<seq<nat>> {
    seq(|shape|, p requires 0 <= p < |shape| => shape[p].Threads())
  }

  /** `Cpu.get_threads()`: the natural order, package by package and core by core. */
  function Threads(shape: Shape): seq<nat> { Flatten(PackageThreads(shape)) }

  /** What the constructors demand, and unique identifiers. */
  ghost predicate WellFormed(shape: Shape) {
    && |shape| > 0
    && (forall p :: 0 <= p < |shape| ==> |shape[p].cores| > 0)
    && (forall p, c :: 0 <= p < |shape| && 0 <= c < |shape[p].cores| ==> |shape[p].cores[c].threads| > 0)
    && NoDup(Threads(shape))
    && (forall p, q :: 0 <= p < q < |shape| ==> shape[p].id != shape[q].id)
    && (forall p, c, d :: 0 <= p < |shape| && 0 <= c < d < |shape[p].cores| ==>
          shape[p].cores[c].id != shape[p].cores[d].id)
  }

  ghost predicate Covers(shape: Shape, pl: Placement) { pl.Keys == ToSet(Threads(shape)) }

  // ---- reading a placement ----

  function EmptySet(pl: Placement): set<nat> { set t | t in pl && pl[t] == {} }

  function ClaimedSet(pl: Placement): set<nat> { set t | t in pl && pl[t] != {} }

  function HeldBy(pl: Placement, w: Id): set<nat> { set t | t in pl && w in pl[t] }

  /** `isolate.update.get_threads(cpu, workload_id)`. */
  function ThreadsOf(shape: Shape, pl: Placement, w: Id): seq<nat> { Keep(Threads(shape), HeldBy(pl, w)) }

  /** `get_workload_ids`. */
  function WorkloadsOn(pl: Placement): set<Id> { set t, w | t in pl && w in pl[t] :: w }

  /** The workloads with a claim on any of the given threads. */
  function IdsOn(ts: seq<nat>, pl: Placement): set<Id> { set t, w | t in ts && t in pl && w in pl[t] :: w }

  lemma OnIffHeld(pl: Placement, w: Id)
    ensures w in WorkloadsOn(pl) <==> HeldBy(pl, w) != {}
  {
    if w in WorkloadsOn(pl) {
      var t :| t in pl && w in pl[t];
      assert t in HeldBy(pl, w);
    } else {
      assert forall t :: t in pl ==> t !in HeldBy(pl, w);
    }
  }

  // ---- changing a placement ----

  function Cleared(pl: Placement): Placement { map t | t in pl :: {} }

  function Claim(pl: Placement, ts: set<nat>, w: Id): Placement {
    map t | t in pl :: if t in ts then pl[t] + {w} else pl[t]
  }

  lemma ClaimFacts(pl: Placement, ts: set<nat>, w: Id)
    requires ts <= pl.Keys
    ensures Claim(pl, ts, w).Keys == pl.Keys
    ensures EmptySet(Claim(pl, ts, w)) == EmptySet(pl) - ts
    ensures HeldBy(Claim(pl, ts, w), w) == HeldBy(pl, w) + ts
    ensures forall v :: v != w ==> HeldBy(Claim(pl, ts, w), v) == HeldBy(pl, v)
  {
    var pl' := Claim(pl, ts, w);
    forall v | v != w ensures HeldBy(pl', v) == HeldBy(pl, v) {
      forall t | t in pl ensures t in HeldBy(pl', v) <==> t in HeldBy(pl, v) {
      }
    }
  }

  lemma ClaimTwice(pl: Placement, a: set<nat>, b: set<nat>, w: Id)
    ensures Claim(Claim(pl, a, w), b, w) == Claim(pl, a + b, w)
  {
  }

  // ---- geometry ----

  ghost function PackageBins(shape: Shape, e: set<nat>): Bins {
    seq(|shape|, p requires 0 <= p < |shape| => ToSet(shape[p].Threads()) * e)
  }

  ghost function CoreBins(pkg: Package, e: set<nat>): Bins {
    seq(|pkg.cores|, c requires 0 <= c < |pkg.cores| => ToSet(pkg.cores[c].threads) * e)
  }

  lemma ThreadGeometry(shape: Shape)
    requires WellFormed(shape)
    ensures forall p :: 0 <= p < |shape| ==> NoDup(shape[p].Threads())
    ensures forall p, q :: 0 <= p < q < |shape| ==> ToSet(shape[p].Threads()) !! ToSet(shape[q].Threads())
  {
    FlattenNoDup(PackageThreads(shape));
    forall p | 0 <= p < |shape| ensures NoDup(shape[p].Threads()) {
      assert PackageThreads(shape)[p] == shape[p].Threads();
    }
    forall p, q | 0 <= p < q < |shape| ensures ToSet(shape[p].Threads()) !! ToSet(shape[q].Threads()) {
      assert PackageThreads(shape)[p] == shape[p].Threads() && PackageThreads(shape)[q] == shape[q].Threads();
    }
  }

  lemma CoreGeometry(pkg: Package)
    requires NoDup(pkg.Threads())
    ensures forall c :: 0 <= c < |pkg.cores| ==> NoDup(pkg.cores[c].threads)
    ensures forall c, d :: 0 <= c < d < |pkg.cores| ==> ToSet(pkg.cores[c].threads) !! ToSet(pkg.cores[d].threads)
    ensures forall c :: 0 <= c < |pkg.cores| ==> ToSet(pkg.cores[c].threads) <= ToSet(pkg.Threads())
  {
    FlattenNoDup(pkg.CoreThreads());
    forall c | 0 <= c < |pkg.cores|
      ensures NoDup(pkg.cores[c].threads) && ToSet(pkg.cores[c].threads) <= ToSet(pkg.Threads())
    {
      assert pkg.CoreThreads()[c] == pkg.cores[c].threads;
      forall t | t in pkg.cores[c].threads ensures t in pkg.Threads() {
        FlattenMember(pkg.CoreThreads(), c, t);
      }
    }
    forall c, d | 0 <= c < d < |pkg.cores| ensures ToSet(pkg.cores[c].threads) !! ToSet(pkg.cores[d].threads) {
      assert pkg.CoreThreads()[c] == pkg.cores[c].threads && pkg.CoreThreads()[d] == pkg.cores[d].threads;
    }
  }

  lemma ThreadPackage(shape: Shape, t: nat) returns (p: nat)
    requires t in Threads(shape)
    ensures p < |shape| && t in shape[p].Threads()
  {
    p := FlattenOrigin(PackageThreads(shape), t);
  }

  lemma ThreadCore(pkg: Package, t: nat) returns (c: nat)
    requires t in pkg.Threads()
    ensures c < |pkg.cores| && t in pkg.cores[c].threads
  {
    c := FlattenOrigin(pkg.CoreThreads(), t);
  }

  lemma PackageWithin(shape: Shape, p: nat)
    requires p < |shape|
    ensures ToSet(shape[p].Threads()) <= ToSet(Threads(shape))
  {
    assert PackageThreads(shape)[p] == shape[p].Threads();
    forall t | t in shape[p].Threads() ensures t in Threads(shape) {
      FlattenMember(PackageThreads(shape), p, t);
    }
  }

  lemma BinsCover(shape: Shape, e: set<nat>)
    requires WellFormed(shape) && e <= ToSet(Threads(shape))
    ensures Disjoint(PackageBins(shape, e)) && Within(PackageBins(shape, e), e)
  {
    ThreadGeometry(shape);
    forall t | t in e ensures exists b :: 0 <= b < |shape| && t in PackageBins(shape, e)[b] {
      var p := ThreadPackage(shape, t);
      assert t in PackageBins(shape, e)[p];
    }
  }

  lemma CoreBinsCover(pkg: Package, e: set<nat>)
    requires NoDup(pkg.Threads())
    ensures Disjoint(CoreBins(pkg, e)) && Within(CoreBins(pkg, e), ToSet(pkg.Threads()) * e)
    ensures forall c :: 0 <= c < |pkg.cores| ==> CoreBins(pkg, e)[c] <= ToSet(pkg.Threads()) * e
  {
    CoreGeometry(pkg);
    forall t | t in ToSet(pkg.Threads()) * e ensures exists b :: 0 <= b < |pkg.cores| && t in CoreBins(pkg, e)[b] {
      var c := ThreadCore(pkg, t);
      assert t in CoreBins(pkg, e)[c];
    }
  }
}
