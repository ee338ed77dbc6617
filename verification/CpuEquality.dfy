/** `Cpu.__eq__`: equality of sets of packages, of sets of cores and of sets of threads, all the way down. */
module CpuEquality {
  import opened Collections
  import opened Topology

  type ThreadValue = (nat, set<Id>)
  type CoreValue = (nat, set<ThreadValue>)
  type PackageValue = (nat, set<CoreValue>)

  function CoreSeen(core: Core, pl: Placement): CoreValue {
    (core.id, set t | t in core.threads && t in pl :: (t, pl[t]))
  }

  function PackageSeen(pkg: Package, pl: Placement): PackageValue {
    (pkg.id, set c | c in pkg.cores :: CoreSeen(c, pl))
  }

  function CpuSeen(shape: Shape, pl: Placement): set<PackageValue> {
    set p | p in shape :: PackageSeen(p, pl)
  }

  /** Two processors of one shape are equal exactly when every thread carries the same workloads on both. */
  lemma EqualIff(shape: Shape, pl: Placement, pl': Placement)
    requires WellFormed(shape) && Covers(shape, pl) && Covers(shape, pl')
    ensures CpuSeen(shape, pl) == CpuSeen(shape, pl') <==> pl == pl'
  {
    hide CpuSeen, WellFormed, Threads;
    if CpuSeen(shape, pl) == CpuSeen(shape, pl') {
      forall t | t in pl ensures pl[t] == pl'[t] {
        assert t in ToSet(Threads(shape));
        SeenOnThread(shape, pl, pl', t);
      }
    }
  }

  lemma SeenOnThread(shape: Shape, pl: Placement, pl': Placement, t: nat)
    requires WellFormed(shape) && Covers(shape, pl) && Covers(shape, pl') && t in Threads(shape)
    requires CpuSeen(shape, pl) == CpuSeen(shape, pl')
    ensures t in pl && t in pl' && pl[t] == pl'[t]
  {
    hide PackageSeen, CoreSeen;
    assert t in ToSet(Threads(shape));
    var p := ThreadPackage(shape, t);
    assert PackageSeen(shape[p], pl) in CpuSeen(shape, pl);
    var q :| 0 <= q < |shape| && PackageSeen(shape[q], pl') == PackageSeen(shape[p], pl);
    SameId(shape[p], shape[q], pl, pl');
    assert p == q;
    var c := ThreadCore(shape[p], t);
    var d := CoreMatch(shape[p], pl, pl', c);
    assert c == d;
    ThreadMatch(shape[p].cores[c], pl, pl', t);
  }

  lemma SameId(p: Package, q: Package, pl: Placement, pl': Placement)
    requires PackageSeen(p, pl) == PackageSeen(q, pl')
    ensures p.id == q.id
  {
  }

  lemma CoreMatch(pkg: Package, pl: Placement, pl': Placement, c: nat) returns (d: nat)
    requires c < |pkg.cores| && PackageSeen(pkg, pl) == PackageSeen(pkg, pl')
    ensures d < |pkg.cores| && CoreSeen(pkg.cores[c], pl) == CoreSeen(pkg.cores[d], pl')
    ensures pkg.cores[c].id == pkg.cores[d].id
  {
    assert CoreSeen(pkg.cores[c], pl) in PackageSeen(pkg, pl).1;
    d :| 0 <= d < |pkg.cores| && CoreSeen(pkg.cores[d], pl') == CoreSeen(pkg.cores[c], pl);
  }

  lemma ThreadMatch(core: Core, pl: Placement, pl': Placement, t: nat)
    requires CoreSeen(core, pl) == CoreSeen(core, pl') && t in core.threads && t in pl && t in pl'
    ensures pl[t] == pl'[t]
  {
    assert (t, pl[t]) in CoreSeen(core, pl).1;
  }

  // ---- processors of different trees ----

  /** A thread with this id and these workloads is in the core of that id, in the package of that id. */
  ghost predicate Has(shape: Shape, pl: Placement, packageId: nat, coreId: nat, value: ThreadValue) {
    exists p, c :: 0 <= p < |shape| && 0 <= c < |shape[p].cores| && HasAt(shape, pl, p, c, packageId, coreId, value)
  }

  ghost predicate HasAt(shape: Shape, pl: Placement, p: nat, c: nat, packageId: nat, coreId: nat, value: ThreadValue)
    requires p < |shape| && c < |shape[p].cores|
  {
    && shape[p].id == packageId && shape[p].cores[c].id == coreId
    && value.0 in shape[p].cores[c].threads && value.0 in pl && pl[value.0] == value.1
  }

  ghost predicate Alike(shape: Shape, pl: Placement, shape': Shape, pl': Placement) {
    forall packageId, coreId, value :: Has(shape, pl, packageId, coreId, value) ==>
      Has(shape', pl', packageId, coreId, value)
  }

  lemma SeenMeansAlike(shape: Shape, pl: Placement, shape': Shape, pl': Placement)
    requires CpuSeen(shape, pl) == CpuSeen(shape', pl')
    ensures Alike(shape, pl, shape', pl')
  {
    forall packageId, coreId, value | Has(shape, pl, packageId, coreId, value)
      ensures Has(shape', pl', packageId, coreId, value)
    {
      var p: nat, c: nat :| p < |shape| && c < |shape[p].cores| && HasAt(shape, pl, p, c, packageId, coreId, value);
      assert PackageSeen(shape[p], pl) in CpuSeen(shape', pl');
      var q: nat :| q < |shape'| && PackageSeen(shape'[q], pl') == PackageSeen(shape[p], pl);
      assert CoreSeen(shape[p].cores[c], pl) in PackageSeen(shape'[q], pl').1;
      var d: nat :| d < |shape'[q].cores| && CoreSeen(shape'[q].cores[d], pl') == CoreSeen(shape[p].cores[c], pl);
      assert value in CoreSeen(shape[p].cores[c], pl).1;
      assert HasAt(shape', pl', q, d, packageId, coreId, value);
    }
  }

  /** The core of the same ids on the other processor. */
  lemma CoreAlike(shape: Shape, pl: Placement, shape': Shape, pl': Placement, p: nat, c: nat) returns (q: nat, d: nat)
    requires WellFormed(shape) && Covers(shape, pl) && WellFormed(shape') && Alike(shape, pl, shape', pl')
    requires p < |shape| && c < |shape[p].cores|
    ensures q < |shape'| && d < |shape'[q].cores|
    ensures shape'[q].id == shape[p].id && shape'[q].cores[d].id == shape[p].cores[c].id
    ensures CoreSeen(shape[p].cores[c], pl).1 <= CoreSeen(shape'[q].cores[d], pl').1
  {
    var core := shape[p].cores[c];
    q, d := HomeOf(shape, pl, shape', pl', p, c, core.threads[0]);
    forall value | value in CoreSeen(core, pl).1 ensures value in CoreSeen(shape'[q].cores[d], pl').1 {
      var q', d' := HomeOf(shape, pl, shape', pl', p, c, value.0);
      assert q' == q && d' == d;
    }
  }

  lemma HomeOf(shape: Shape, pl: Placement, shape': Shape, pl': Placement, p: nat, c: nat, t: nat)
    returns (q: nat, d: nat)
    requires Covers(shape, pl) && Alike(shape, pl, shape', pl')
    requires p < |shape| && c < |shape[p].cores| && t in shape[p].cores[c].threads
    ensures t in pl && q < |shape'| && d < |shape'[q].cores|
    ensures HasAt(shape', pl', q, d, shape[p].id, shape[p].cores[c].id, (t, pl[t]))
  {
    FlattenMember(shape[p].CoreThreads(), c, t);
    PackageWithin(shape, p);
    assert t in ToSet(shape[p].Threads());
    assert HasAt(shape, pl, p, c, shape[p].id, shape[p].cores[c].id, (t, pl[t]));
    assert Has(shape, pl, shape[p].id, shape[p].cores[c].id, (t, pl[t]));
    q, d :| 0 <= q < |shape'| && 0 <= d < |shape'[q].cores|
            && HasAt(shape', pl', q, d, shape[p].id, shape[p].cores[c].id, (t, pl[t]));
  }

  lemma AlikeMeansSeen(shape: Shape, pl: Placement, shape': Shape, pl': Placement)
    requires WellFormed(shape) && Covers(shape, pl) && WellFormed(shape') && Covers(shape', pl')
    requires Alike(shape, pl, shape', pl') && Alike(shape', pl', shape, pl)
    ensures CpuSeen(shape, pl) <= CpuSeen(shape', pl')
  {
    hide Alike, Covers;
    forall p: nat | p < |shape| ensures PackageSeen(shape[p], pl) in CpuSeen(shape', pl') {
      var q, d := CoreAlike(shape, pl, shape', pl', p, 0);
      CoresAlike(shape, pl, shape', pl', p, q);
      CoresAlike(shape', pl', shape, pl, q, p);
      var here, there := PackageSeen(shape[p], pl), PackageSeen(shape'[q], pl');
      assert here.0 == there.0 && here.1 == there.1;
    }
  }

  lemma CoresAlike(shape: Shape, pl: Placement, shape': Shape, pl': Placement, p: nat, q: nat)
    requires WellFormed(shape) && Covers(shape, pl) && WellFormed(shape') && Covers(shape', pl')
    requires Alike(shape, pl, shape', pl') && Alike(shape', pl', shape, pl)
    requires p < |shape| && q < |shape'| && shape[p].id == shape'[q].id
    ensures PackageSeen(shape[p], pl).1 <= PackageSeen(shape'[q], pl').1
  {
    hide Alike, Covers;
    forall c: nat | c < |shape[p].cores| ensures CoreSeen(shape[p].cores[c], pl) in PackageSeen(shape'[q], pl').1 {
      var q', d := CoreAlike(shape, pl, shape', pl', p, c);
      assert q' == q;
      var p', c' := CoreAlike(shape', pl', shape, pl, q, d);
      assert p' == p && c' == c;
      var here, there := CoreSeen(shape[p].cores[c], pl), CoreSeen(shape'[q].cores[d], pl');
      assert here.0 == there.0 && here.1 == there.1;
    }
  }

  /**
    Processors of any two trees are equal exactly when each has every thread of the other, with the same workloads, in
    a core of the same id in a package of the same id; in which order they are listed makes no difference.
   */
  lemma EqualAnywhereIff(shape: Shape, pl: Placement, shape': Shape, pl': Placement)
    requires WellFormed(shape) && Covers(shape, pl) && WellFormed(shape') && Covers(shape', pl')
    ensures CpuSeen(shape, pl) == CpuSeen(shape', pl') <==>
            forall packageId, coreId, value ::
              Has(shape, pl, packageId, coreId, value) <==> Has(shape', pl', packageId, coreId, value)
  {
    hide WellFormed, Covers, Has, CpuSeen;
    if CpuSeen(shape, pl) == CpuSeen(shape', pl') {
      SeenMeansAlike(shape, pl, shape', pl');
      SeenMeansAlike(shape', pl', shape, pl);
    } else if forall packageId, coreId, value ::
        Has(shape, pl, packageId, coreId, value) <==> Has(shape', pl', packageId, coreId, value) {
      AlikeMeansSeen(shape, pl, shape', pl');
      AlikeMeansSeen(shape', pl', shape, pl);
    }
  }
}
