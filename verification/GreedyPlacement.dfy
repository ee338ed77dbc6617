/**
  The greedy allocator as a function of its request, and what it guarantees: it succeeds exactly when the
  demand fits, it shares no thread, and every workload lands on as few packages and cores as any choice of
  empty threads could.
 */
module GreedyPlacement {
  import opened Collections
  import opened Bins
  import opened Topology
  import opened GreedySpec

  /** A placement returned, or the placement left behind by a call that raised. */
  datatype Outcome = Placed(pl: Placement) | Raised(pl: Placement)

  function Place(shape: Shape, pl: Placement, w: Workload): Outcome {
    var taken := Take(shape, EmptySet(pl), w.count);
    var pl' := Claim(pl, ToSet(taken), w.id);
    if |taken| == w.count then Placed(pl') else Raised(pl')
  }

  function PlaceAll(shape: Shape, pl: Placement, ws: seq<Workload>): Outcome {
    if ws == [] then Placed(pl) else
      var n := |ws| - 1;
      match PlaceAll(shape, pl, ws[..n])
      case Raised(left) => Raised(left)
      case Placed(before) => Place(shape, before, ws[n])
  }

  /** `GreedyCpuAllocator.isolate`: start from a cleared CPU, place the workloads in request order. */
  function GreedyIsolate(shape: Shape, pl: Placement, ws: seq<Workload>): Outcome {
    PlaceAll(shape, Cleared(pl), ws)
  }

  function Total(ws: seq<Workload>): nat {
    if ws == [] then 0 else Total(ws[..|ws| - 1]) + ws[|ws| - 1].count
  }

  /** The keys of a Python dictionary. */
  ghost predicate DistinctIds(ws: seq<Workload>) {
    forall i, j :: 0 <= i < j < |ws| ==> ws[i].id != ws[j].id
  }

  function Ids(ws: seq<Workload>): set<Id> { set i | 0 <= i < |ws| :: ws[i].id }

  /** The threads that a step from `pl` to `pl'` put to use. */
  ghost function NewlyUsed(pl: Placement, pl': Placement): set<nat> { EmptySet(pl) - EmptySet(pl') }

  lemma {:induction false} PlaceFacts(shape: Shape, pl: Placement, w: Workload)
    requires WellFormed(shape) && Covers(shape, pl)
    ensures var out := Place(shape, pl, w);
            var taken := NewlyUsed(pl, out.pl);
            && Covers(shape, out.pl)
            && (out.Placed? <==> w.count <= |EmptySet(pl)|)
            && |taken| == Min(w.count, |EmptySet(pl)|)
            && out.pl == Claim(pl, taken, w.id)
            && EmptySet(out.pl) == EmptySet(pl) - taken
            && HeldBy(out.pl, w.id) == HeldBy(pl, w.id) + taken
            && (forall v :: v != w.id ==> HeldBy(out.pl, v) == HeldBy(pl, v))
            && GreedyChoice(shape, EmptySet(pl), |taken|, taken)
  {
    hide DrainsLargestFirst, WellFormed, NoDup;
    var e := EmptySet(pl);
    var r := Take(shape, e, w.count);
    assert ToSet(Threads(shape)) * e == e;
    TakeDrains(shape, e, w.count);
    NoDupCard(r);
    ClaimFacts(pl, ToSet(r), w.id);
    assert NewlyUsed(pl, Place(shape, pl, w).pl) == ToSet(r);
  }

  // ---- optimality of one placement ----

  ghost function PackagesTouched(shape: Shape, s: set<nat>): set<nat> {
    set p | 0 <= p < |shape| && ToSet(shape[p].Threads()) * s != {}
  }

  ghost function CoresTouched(pkg: Package, s: set<nat>): set<nat> {
    set c | 0 <= c < |pkg.cores| && ToSet(pkg.cores[c].threads) * s != {}
  }

  lemma TouchedPackages(shape: Shape, e: set<nat>, s: set<nat>)
    requires s <= e
    ensures Touched(PackageBins(shape, e), s) == PackagesTouched(shape, s)
  {
    forall p | 0 <= p < |shape| ensures PackageBins(shape, e)[p] * s == ToSet(shape[p].Threads()) * s {
    }
  }

  lemma TouchedCores(pkg: Package, e: set<nat>, s: set<nat>)
    requires s <= e
    ensures Touched(CoreBins(pkg, e), s) == CoresTouched(pkg, s)
  {
    forall c | 0 <= c < |pkg.cores| ensures CoreBins(pkg, e)[c] * s == ToSet(pkg.cores[c].threads) * s {
    }
  }

  lemma {:induction false} ChoiceFewestPackages(shape: Shape, e: set<nat>, taken: set<nat>, other: set<nat>)
    requires WellFormed(shape) && e <= ToSet(Threads(shape)) && taken <= e && other <= e
    requires GreedyChoice(shape, e, |taken|, taken) && |other| >= |taken|
    ensures |PackagesTouched(shape, taken)| <= |PackagesTouched(shape, other)|
  {
    hide DrainsLargestFirst, Touched, Disjoint, WellFormed, Within;
    BinsCover(shape, e);
    WithinSubset(PackageBins(shape, e), e, other);
    FewestBins(PackageBins(shape, e), |taken|, taken, other);
    TouchedPackages(shape, e, taken);
    TouchedPackages(shape, e, other);
  }

  lemma ChoiceFewestCores(pkg: Package, e: set<nat>, part: set<nat>, other: set<nat>)
    requires NoDup(pkg.Threads()) && part <= e && other <= e * ToSet(pkg.Threads())
    requires DrainsLargestFirst(CoreBins(pkg, e), |part|, part) && |other| >= |part|
    ensures |CoresTouched(pkg, part)| <= |CoresTouched(pkg, other)|
  {
    hide DrainsLargestFirst, Touched, Disjoint, NoDup, Within;
    CoreBinsCover(pkg, e);
    WithinSubset(CoreBins(pkg, e), ToSet(pkg.Threads()) * e, other);
    FewestBins(CoreBins(pkg, e), |part|, part, other);
    TouchedCores(pkg, e, part);
    TouchedCores(pkg, e, other);
  }

  /** No package has `k` empty threads. */
  ghost predicate NoPackageFits(shape: Shape, e: set<nat>, k: nat) {
    forall p :: 0 <= p < |shape| ==> |ToSet(shape[p].Threads()) * e| < k
  }

  lemma NoneHoldsMeansNoPackageFits(shape: Shape, e: set<nat>, k: nat)
    ensures NoneHolds(PackageBins(shape, e), k) <==> NoPackageFits(shape, e, k)
  {
    forall p | 0 <= p < |shape| ensures PackageBins(shape, e)[p] == ToSet(shape[p].Threads()) * e {
    }
  }

  lemma {:induction false} ChoiceSpans(shape: Shape, e: set<nat>, taken: set<nat>)
    requires WellFormed(shape) && e <= ToSet(Threads(shape)) && taken <= e
    requires GreedyChoice(shape, e, |taken|, taken)
    ensures |PackagesTouched(shape, taken)| > 1 <==> |taken| > 0 && NoPackageFits(shape, e, |taken|)
  {
    hide DrainsLargestFirst, Touched, Disjoint, WellFormed, NoneHolds, NoPackageFits, PackageBins, PackagesTouched;
    BinsCover(shape, e);
    SpansIffNoBinFits(PackageBins(shape, e), |taken|, taken);
    TouchedPackages(shape, e, taken);
    NoneHoldsMeansNoPackageFits(shape, e, |taken|);
  }

  /** No choice of as many empty threads touches fewer packages. */
  lemma {:induction false} FewestPackages(shape: Shape, pl: Placement, w: Workload, other: set<nat>)
    requires WellFormed(shape) && Covers(shape, pl)
    requires other <= EmptySet(pl) && |other| == w.count
    ensures var taken := NewlyUsed(pl, Place(shape, pl, w).pl);
            && |taken| == w.count
            && |PackagesTouched(shape, taken)| <= |PackagesTouched(shape, other)|
  {
    hide Place, GreedyChoice, WellFormed;
    PlaceFacts(shape, pl, w);
    SubsetCard(other, EmptySet(pl));
    ChoiceFewestPackages(shape, EmptySet(pl), NewlyUsed(pl, Place(shape, pl, w).pl), other);
  }

  /** Inside each package, no choice of as many of its empty threads touches fewer cores. */
  lemma {:induction false} FewestCores(shape: Shape, pl: Placement, w: Workload, p: nat, other: set<nat>)
    requires WellFormed(shape) && Covers(shape, pl) && p < |shape|
    requires var part := NewlyUsed(pl, Place(shape, pl, w).pl) * ToSet(shape[p].Threads());
             other <= EmptySet(pl) * ToSet(shape[p].Threads()) && |other| == |part|
    ensures var part := NewlyUsed(pl, Place(shape, pl, w).pl) * ToSet(shape[p].Threads());
            |CoresTouched(shape[p], part)| <= |CoresTouched(shape[p], other)|
  {
    hide Place, DrainsLargestFirst, WellFormed, NoDup;
    PlaceFacts(shape, pl, w);
    ThreadGeometry(shape);
    var part := NewlyUsed(pl, Place(shape, pl, w).pl) * ToSet(shape[p].Threads());
    ChoiceFewestCores(shape[p], EmptySet(pl), part, other);
  }

  /** A placed workload spans packages exactly when it asked for more than any package had left. */
  lemma {:induction false} SpansIffNoPackageFits(shape: Shape, pl: Placement, w: Workload)
    requires WellFormed(shape) && Covers(shape, pl) && w.count <= |EmptySet(pl)|
    ensures var taken := NewlyUsed(pl, Place(shape, pl, w).pl);
            |PackagesTouched(shape, taken)| > 1 <==>
            w.count > 0 && NoPackageFits(shape, EmptySet(pl), w.count)
  {
    hide Place, GreedyChoice, WellFormed;
    PlaceFacts(shape, pl, w);
    ChoiceSpans(shape, EmptySet(pl), NewlyUsed(pl, Place(shape, pl, w).pl));
  }

  // ---- exactness of a whole call ----

  ghost predicate AllEmpty(pl: Placement) { forall t :: t in pl ==> pl[t] == {} }

  ghost predicate NoSharing(pl: Placement) { forall t :: t in pl ==> |pl[t]| <= 1 }

  /** What every run over a prefix of the request has achieved, whether or not it went through. */
  ghost predicate Accounted(shape: Shape, ws: seq<Workload>, out: Outcome) {
    && Covers(shape, out.pl) && NoSharing(out.pl)
    && (forall v :: v !in Ids(ws) ==> HeldBy(out.pl, v) == {})
    && (out.Placed? <==> Total(ws) <= |out.pl|)
    && (out.Placed? ==> |EmptySet(out.pl)| == |out.pl| - Total(ws))
    && (out.Placed? ==> forall i :: 0 <= i < |ws| ==> |HeldBy(out.pl, ws[i].id)| == ws[i].count)
    && (out.Raised? ==> EmptySet(out.pl) == {})
    && (out.Raised? ==> forall i :: 0 <= i < |ws| ==> |HeldBy(out.pl, ws[i].id)| <= ws[i].count)
  }

  lemma ClaimSharesNothing(pl: Placement, taken: set<nat>, w: Id)
    requires NoSharing(pl) && taken <= EmptySet(pl)
    ensures NoSharing(Claim(pl, taken, w))
  {
    forall t | t in pl ensures |Claim(pl, taken, w)[t]| <= 1 {
      if t in taken { assert Claim(pl, taken, w)[t] == {w}; }
    }
  }

  lemma IdsPrefix(ws: seq<Workload>)
    requires ws != [] && DistinctIds(ws)
    ensures Ids(ws) == Ids(ws[..|ws| - 1]) + {ws[|ws| - 1].id}
    ensures ws[|ws| - 1].id !in Ids(ws[..|ws| - 1]) && DistinctIds(ws[..|ws| - 1])
  {
    var n := |ws| - 1;
    forall v | v in Ids(ws) ensures v in Ids(ws[..n]) + {ws[n].id} {
      var i :| 0 <= i < |ws| && ws[i].id == v;
      if i < n { assert ws[..n][i].id == v; }
    }
    forall v | v in Ids(ws[..n]) ensures v in Ids(ws) {
      var i :| 0 <= i < n && ws[..n][i].id == v;
      assert ws[i].id == v;
    }
  }

  lemma {:induction false} PlaceAllAccounted(shape: Shape, pl: Placement, ws: seq<Workload>)
    requires WellFormed(shape) && Covers(shape, pl) && AllEmpty(pl) && DistinctIds(ws)
    ensures Accounted(shape, ws, PlaceAll(shape, pl, ws))
    decreases |ws|
  {
    hide Place, WellFormed, DistinctIds, Covers;
    if ws == [] {
      assert EmptySet(pl) == pl.Keys;
    } else {
      var n := |ws| - 1;
      IdsPrefix(ws);
      PlaceAllAccounted(shape, pl, ws[..n]);
      var out := PlaceAll(shape, pl, ws[..n]);
      if out.Placed? {
        AccountedStep(shape, ws, out);
      } else {
        assert PlaceAll(shape, pl, ws) == out;
        forall i | 0 <= i < |ws| ensures |HeldBy(out.pl, ws[i].id)| <= ws[i].count {
          if i < n { assert ws[..n][i] == ws[i]; }
        }
      }
    }
  }

  lemma TotalUnfold(ws: seq<Workload>)
    requires ws != []
    ensures Total(ws) == Total(ws[..|ws| - 1]) + ws[|ws| - 1].count
  {
  }

  lemma AccountedStep(shape: Shape, ws: seq<Workload>, before: Outcome)
    requires WellFormed(shape) && ws != [] && DistinctIds(ws) && before.Placed?
    requires Accounted(shape, ws[..|ws| - 1], before)
    ensures Accounted(shape, ws, Place(shape, before.pl, ws[|ws| - 1]))
  {
    hide Place, GreedyChoice, WellFormed, NoSharing, Claim, EmptySet, HeldBy, Total;
    assert Total(ws) == Total(ws[..|ws| - 1]) + ws[|ws| - 1].count by { TotalUnfold(ws); }
    var n := |ws| - 1;
    var out := Place(shape, before.pl, ws[n]);
    var taken := NewlyUsed(before.pl, out.pl);
    IdsPrefix(ws);
    PlaceFacts(shape, before.pl, ws[n]);
    ClaimSharesNothing(before.pl, taken, ws[n].id);
    SubsetCard(taken, EmptySet(before.pl));
    assert |out.pl| == |out.pl.Keys| == |before.pl.Keys| == |before.pl|;
    assert HeldBy(before.pl, ws[n].id) == {};
    forall i | 0 <= i < n ensures HeldBy(out.pl, ws[i].id) == HeldBy(before.pl, ws[i].id) && ws[..n][i] == ws[i] {
      assert ws[i].id != ws[n].id;
    }
  }

  /**
    Exactness: the greedy allocator succeeds if and only if the demand fits, and then every workload holds
    exactly its count, nothing else is on the CPU, no thread is shared and the used threads add up.
   */
  lemma {:induction false} GreedyExact(shape: Shape, pl: Placement, ws: seq<Workload>)
    requires WellFormed(shape) && Covers(shape, pl) && DistinctIds(ws)
    ensures var out := GreedyIsolate(shape, pl, ws);
            && (out.Placed? <==> Total(ws) <= |Threads(shape)|)
            && (out.Placed? ==>
                  && Covers(shape, out.pl)
                  && (forall i :: 0 <= i < |ws| ==> |HeldBy(out.pl, ws[i].id)| == ws[i].count)
                  && (forall v :: v !in Ids(ws) ==> HeldBy(out.pl, v) == {})
                  && (forall t :: t in out.pl ==> |out.pl[t]| <= 1)
                  && |ClaimedSet(out.pl)| == Total(ws))
            && (out.Raised? ==> EmptySet(out.pl) == {})
  {
    PlaceAllAccounted(shape, Cleared(pl), ws);
    var out := GreedyIsolate(shape, pl, ws);
    NoDupCard(Threads(shape));
    assert |out.pl| == |out.pl.Keys|;
    assert ClaimedSet(out.pl) == out.pl.Keys - EmptySet(out.pl);
    SubsetCard(EmptySet(out.pl), out.pl.Keys);
  }

  /** Once a prefix of the request has raised, the whole call has. */
  lemma RaisedStays(shape: Shape, pl: Placement, ws: seq<Workload>, i: nat)
    requires i <= |ws| && PlaceAll(shape, pl, ws[..i]).Raised?
    ensures PlaceAll(shape, pl, ws) == PlaceAll(shape, pl, ws[..i])
    decreases |ws| - i
  {
    if i == |ws| {
      assert ws[..i] == ws;
    } else {
      assert ws[..i + 1][..i] == ws[..i];
      RaisedStays(shape, pl, ws, i + 1);
    }
  }

  /**
    Where the demand first overflows, the greedy allocator raises after having placed everybody before, given the
    overflowing workload all that was left, and not looked at anybody after.
   */
  lemma GreedyOverflow(shape: Shape, pl: Placement, ws: seq<Workload>, i: nat)
    requires WellFormed(shape) && Covers(shape, pl) && DistinctIds(ws) && i < |ws|
    requires Total(ws[..i]) <= |Threads(shape)| < Total(ws[..i]) + ws[i].count
    ensures var out := GreedyIsolate(shape, pl, ws);
            && out.Raised? && Covers(shape, out.pl)
            && (forall j :: 0 <= j < i ==> |HeldBy(out.pl, ws[j].id)| == ws[j].count)
            && |HeldBy(out.pl, ws[i].id)| == |Threads(shape)| - Total(ws[..i])
            && (forall j :: i < j < |ws| ==> HeldBy(out.pl, ws[j].id) == {})
  {
    hide Place, GreedyChoice, WellFormed, Claim, Take, HeldBy, EmptySet, Covers, NoSharing, Total;
    var pl0 := Cleared(pl);
    ClearedFacts(shape, pl);
    assert DistinctIds(ws[..i]);
    PlaceAllAccounted(shape, pl0, ws[..i]);
    var before := PlaceAll(shape, pl0, ws[..i]);
    PlaceFacts(shape, before.pl, ws[i]);
    var out := Place(shape, before.pl, ws[i]);
    assert ws[..i + 1][..i] == ws[..i];
    CoversCard(shape, before.pl);
    assert PlaceAll(shape, pl0, ws[..i + 1]) == out && out.Raised?;
    RaisedStays(shape, pl0, ws, i + 1);
    forall j | 0 <= j < |ws| && j != i ensures HeldBy(out.pl, ws[j].id) == HeldBy(before.pl, ws[j].id) {
      assert ws[j].id != ws[i].id;
    }
    assert forall j :: 0 <= j < i ==> ws[..i][j] == ws[j];
    assert forall j :: i <= j < |ws| ==> ws[j].id !in Ids(ws[..i]);
  }

  lemma ClearedFacts(shape: Shape, pl: Placement)
    requires Covers(shape, pl)
    ensures Covers(shape, Cleared(pl)) && AllEmpty(Cleared(pl))
  {
  }

  lemma CoversCard(shape: Shape, pl: Placement)
    requires WellFormed(shape) && Covers(shape, pl)
    ensures |pl| == |Threads(shape)|
  {
    NoDupCard(Threads(shape));
    assert |pl| == |pl.Keys|;
  }
}
