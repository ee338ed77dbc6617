/** The violation detector as it runs, and the order it puts on placements. */
module Detection {
  import opened Collections
  import opened Topology
  import opened GreedyPlacement
  import opened Violations
  import opened CpusetText
  import opened Processor

  // ---- workloads over several packages ----

  /** The ids of the packages that carry `w`, in order. */
  function PackagesWith(shape: Shape, pl: Placement, w: Id): seq<nat> {
    if shape == [] then [] else
      var n := |shape| - 1;
      var before := PackagesWith(shape[..n], pl, w);
      if ToSet(shape[n].Threads()) * HeldBy(pl, w) != {} then before + [shape[n].id] else before
  }

  lemma {:induction false} PackagesWithCount(shape: Shape, pl: Placement, w: Id)
    ensures |PackagesWith(shape, pl, w)| == |PackagesTouched(shape, HeldBy(pl, w))|
    decreases |shape|
  {
    hide HeldBy;
    if shape == [] {
      assert PackagesTouched(shape, HeldBy(pl, w)) == {};
    } else {
      PackagesWithCount(shape[..|shape| - 1], pl, w);
      TouchedOneMore(shape, HeldBy(pl, w));
    }
  }

  lemma TouchedOneMore(shape: Shape, s: set<nat>)
    requires shape != []
    ensures var n := |shape| - 1;
            var before := PackagesTouched(shape[..n], s);
            n !in before
            && PackagesTouched(shape, s) == if ToSet(shape[n].Threads()) * s != {} then before + {n} else before
  {
    hide ToSet, Flatten;
    var n := |shape| - 1;
    forall p | 0 <= p < n ensures shape[..n][p] == shape[p] {
    }
  }

  /** The list names exactly the packages that the workload is on. */
  lemma {:induction false} PackagesWithIds(shape: Shape, pl: Placement, w: Id, id: nat)
    ensures id in PackagesWith(shape, pl, w) <==>
            exists p :: p in PackagesTouched(shape, HeldBy(pl, w)) && shape[p].id == id
    decreases |shape|
  {
    hide HeldBy, PackagesTouched;
    if shape == [] {
      NoPackages(HeldBy(pl, w));
    } else {
      var n := |shape| - 1;
      PackagesWithIds(shape[..n], pl, w, id);
      TouchedOneMore(shape, HeldBy(pl, w));
      TouchedWithin(shape[..n], HeldBy(pl, w));
    }
  }

  lemma NoPackages(s: set<nat>)
    ensures PackagesTouched([], s) == {}
  {
  }

  lemma TouchedWithin(shape: Shape, s: set<nat>)
    ensures forall p :: p in PackagesTouched(shape, s) ==> p < |shape|
  {
  }

  method GetCrossPackageViolations(cpu: Cpu) returns (violations: map<Id, seq<nat>>)
    requires cpu.Valid()
    ensures violations.Keys == CrossPackage(cpu.shape, cpu.State())
    ensures forall w :: w in violations ==> violations[w] == PackagesWith(cpu.shape, cpu.State(), w)
    ensures forall w :: w in violations <==> OnTwoPackages(cpu.shape, cpu.State(), w)
  {
    hide WellFormed, PackagesWith, OnTwoPackages, CrossPackage, WorkloadsOn, Cpu.State;
    SpreadOnes(cpu.shape, cpu.State());
    violations := map[];
    var ids := WorkloadsOn(cpu.State());
    var todo := ids;
    while todo != {}
      invariant todo <= ids
      invariant violations.Keys == CrossPackage(cpu.shape, cpu.State()) - todo
      invariant forall w :: w in violations ==> violations[w] == PackagesWith(cpu.shape, cpu.State(), w)
      decreases |todo|
    {
      var w :| w in todo;
      var packages := PackagesWith(cpu.shape, cpu.State(), w);
      SpreadIfMany(cpu.shape, cpu.State(), w);
      if |packages| > 1 {
        violations := violations[w := packages];
      }
      todo := todo - {w};
    }
  }

  lemma SpreadIfMany(shape: Shape, pl: Placement, w: Id)
    requires w in WorkloadsOn(pl)
    ensures w in CrossPackage(shape, pl) <==> |PackagesWith(shape, pl, w)| > 1
  {
    hide PackagesWith, PackagesTouched;
    PackagesWithCount(shape, pl, w);
  }

  lemma SpreadOnes(shape: Shape, pl: Placement)
    ensures forall w :: w in CrossPackage(shape, pl) <==> OnTwoPackages(shape, pl, w)
    ensures CrossPackage(shape, pl) <= WorkloadsOn(pl)
  {
    forall w ensures w in CrossPackage(shape, pl) <==> OnTwoPackages(shape, pl, w) {
      CrossIff(shape, pl, w);
    }
  }

  // ---- shared cores ----

  /** The dictionary key of a core: package id, colon, core id. */
  function Key(shape: Shape, x: Position): string
    requires IsCore(shape, x)
  {
    PrintNat(shape[x.0].id) + ":" + PrintNat(shape[x.0].cores[x.1].id)
  }

  lemma KeysDistinct(shape: Shape, x: Position, y: Position)
    requires WellFormed(shape) && IsCore(shape, x) && IsCore(shape, y) && Key(shape, x) == Key(shape, y)
    ensures x == y
  {
    hide Split, PrintNat, Threads, NoDup;
    var p, c := PrintNat(shape[x.0].id), PrintNat(shape[x.0].cores[x.1].id);
    var q, d := PrintNat(shape[y.0].id), PrintNat(shape[y.0].cores[y.1].id);
    SplitKey(p, c);
    SplitKey(q, d);
    assert [p, c][0] == [q, d][0] && [p, c][1] == [q, d][1];
    PrintInjective(shape[x.0].id, shape[y.0].id);
    PrintInjective(shape[x.0].cores[x.1].id, shape[y.0].cores[y.1].id);
  }

  lemma {:induction false} SplitKey(a: string, b: string)
    requires (forall i :: 0 <= i < |a| ==> IsDigit(a[i])) && (forall i :: 0 <= i < |b| ==> IsDigit(b[i]))
    ensures Split(a + ":" + b, ':') == [a, b]
  {
    NotInDigits(a, ':');
    NotInDigits(b, ':');
    SplitFirst(a, ':', b);
    SplitNone(b, ':');
    assert a + ":" + b == a + [':'] + b;
  }

  /** The cores the nested loop has visited when it comes to core `c` of package `p`. */
  ghost predicate Visited(x: Position, p: nat, c: nat) { x.0 < p || (x.0 == p && x.1 < c) }

  /** The dictionary holds exactly the shared cores visited so far, each with its workloads. */
  ghost predicate Recorded(shape: Shape, pl: Placement, p: nat, c: nat, m: map<string, set<Id>>) {
    && (forall x :: x in SharedCores(shape, pl) && Visited(x, p, c) ==>
          Key(shape, x) in m && m[Key(shape, x)] == IdsOn(shape[x.0].cores[x.1].threads, pl))
    && (forall k :: k in m ==> exists x :: x in SharedCores(shape, pl) && Visited(x, p, c) && Key(shape, x) == k)
  }

  lemma {:induction false} RecordStep(shape: Shape, pl: Placement, p: nat, c: nat, m: map<string, set<Id>>)
    requires WellFormed(shape) && IsCore(shape, (p, c)) && Recorded(shape, pl, p, c, m)
    ensures var ids := IdsOn(shape[p].cores[c].threads, pl);
            var m' := if |ids| > 1 then m[Key(shape, (p, c)) := ids] else m;
            Recorded(shape, pl, p, c + 1, m')
  {
    hide Key, WellFormed, IdsOn;
    var here := (p, c);
    var ids := IdsOn(shape[p].cores[c].threads, pl);
    var m' := if |ids| > 1 then m[Key(shape, here) := ids] else m;
    assert here in SharedCores(shape, pl) <==> |ids| > 1;
    forall x | x in SharedCores(shape, pl) && Visited(x, p, c + 1)
      ensures Key(shape, x) in m' && m'[Key(shape, x)] == IdsOn(shape[x.0].cores[x.1].threads, pl)
    {
      if x != here {
        assert Visited(x, p, c);
        if Key(shape, x) == Key(shape, here) { KeysDistinct(shape, x, here); }
      }
    }
    forall k | k in m' ensures exists x :: x in SharedCores(shape, pl) && Visited(x, p, c + 1) && Key(shape, x) == k {
      if k in m {
        var x :| x in SharedCores(shape, pl) && Visited(x, p, c) && Key(shape, x) == k;
        assert Visited(x, p, c + 1);
      } else {
        assert Visited(here, p, c + 1);
      }
    }
  }

  lemma NothingRecorded(shape: Shape, pl: Placement)
    ensures Recorded(shape, pl, 0, 0, map[])
  {
  }

  lemma NextPackage(shape: Shape, pl: Placement, p: nat, m: map<string, set<Id>>)
    requires p < |shape| && Recorded(shape, pl, p, |shape[p].cores|, m)
    ensures Recorded(shape, pl, p + 1, 0, m)
  {
    hide Key, IdsOn;
    forall k | k in m ensures exists x :: x in SharedCores(shape, pl) && Visited(x, p + 1, 0) && Key(shape, x) == k {
      var x :| x in SharedCores(shape, pl) && Visited(x, p, |shape[p].cores|) && Key(shape, x) == k;
      assert Visited(x, p + 1, 0);
    }
  }

  method GetSharedCoreViolations(cpu: Cpu) returns (violations: map<string, set<Id>>)
    requires cpu.Valid()
    ensures forall x :: x in SharedCores(cpu.shape, cpu.State()) ==>
              Key(cpu.shape, x) in violations
              && violations[Key(cpu.shape, x)] == IdsOn(cpu.shape[x.0].cores[x.1].threads, cpu.State())
    ensures |violations| == |SharedCores(cpu.shape, cpu.State())|
    ensures forall p, c :: 0 <= p < |cpu.shape| && 0 <= c < |cpu.shape[p].cores| ==>
              Reported(cpu.shape[p], cpu.shape[p].cores[c], cpu.State(), violations)
  {
    hide WellFormed, Key, IdsOn, Recorded, SharedCores, Reported;
    cpu.ValidKeys();
    ghost var pl := cpu.State();
    violations := map[];
    NothingRecorded(cpu.shape, pl);
    for p := 0 to |cpu.shape|
      invariant Recorded(cpu.shape, pl, p, 0, violations)
    {
      for c := 0 to |cpu.shape[p].cores|
        invariant Recorded(cpu.shape, pl, p, c, violations)
      {
        var ids := IdsOn(cpu.shape[p].cores[c].threads, cpu.State());
        RecordStep(cpu.shape, pl, p, c, violations);
        if |ids| > 1 {
          violations := violations[Key(cpu.shape, (p, c)) := ids];
        }
      }
      NextPackage(cpu.shape, pl, p, violations);
    }
    RecordedCount(cpu.shape, pl, violations);
    forall p, c | 0 <= p < |cpu.shape| && 0 <= c < |cpu.shape[p].cores|
      ensures Reported(cpu.shape[p], cpu.shape[p].cores[c], pl, violations)
    {
      ReportedExactly(cpu.shape, pl, violations, (p, c));
    }
  }

  /** A core has an entry exactly when two workloads share it, naming the workloads with a claim on the core. */
  ghost predicate Reported(pkg: Package, core: Core, pl: Placement, m: map<string, set<Id>>) {
    var key := PrintNat(pkg.id) + ":" + PrintNat(core.id);
    && (key in m <==> exists v, w :: v != w && OnCore(core, pl, v) && OnCore(core, pl, w))
    && (key in m ==> forall w :: w in m[key] <==> OnCore(core, pl, w))
  }

  lemma {:induction false} ReportedExactly(shape: Shape, pl: Placement, m: map<string, set<Id>>, x: Position)
    requires WellFormed(shape) && Recorded(shape, pl, |shape|, 0, m) && IsCore(shape, x)
    ensures Reported(shape[x.0], shape[x.0].cores[x.1], pl, m)
  {
    hide WellFormed, PrintNat, SharedCores, IsShared;
    SharedIff(shape, pl, x);
    assert Visited(x, |shape|, 0);
    if Key(shape, x) in m {
      SharedAreCores(shape, pl);
      var y :| y in SharedCores(shape, pl) && Visited(y, |shape|, 0) && Key(shape, y) == Key(shape, x);
      KeysDistinct(shape, y, x);
    }
  }

  lemma SharedAreCores(shape: Shape, pl: Placement)
    ensures forall x :: x in SharedCores(shape, pl) ==> IsCore(shape, x)
  {
  }

  lemma {:induction false} RecordedCount(shape: Shape, pl: Placement, m: map<string, set<Id>>)
    requires WellFormed(shape) && Recorded(shape, pl, |shape|, 0, m)
    ensures |m| == |SharedCores(shape, pl)|
    ensures forall x :: x in SharedCores(shape, pl) ==>
              IsCore(shape, x) && Key(shape, x) in m && m[Key(shape, x)] == IdsOn(shape[x.0].cores[x.1].threads, pl)
  {
    hide Key, WellFormed, IdsOn;
    var shared := SharedCores(shape, pl);
    forall x | x in shared ensures Visited(x, |shape|, 0) && x in Cores(shape) {
    }
    KeyImage(shape, shared);
    assert m.Keys == Keys(shape, shared);
    assert |m| == |m.Keys|;
  }

  ghost function Keys(shape: Shape, xs: set<Position>): set<string>
    requires forall x :: x in xs ==> IsCore(shape, x)
  {
    set x | x in xs :: Key(shape, x)
  }

  /** Distinct cores have distinct keys, so the dictionary has one entry per core. */
  lemma {:induction false} KeyImage(shape: Shape, xs: set<Position>)
    requires WellFormed(shape) && forall x :: x in xs ==> IsCore(shape, x)
    ensures |Keys(shape, xs)| == |xs|
    decreases |xs|
  {
    hide Key, WellFormed;
    if xs != {} {
      var x :| x in xs;
      KeyImage(shape, xs - {x});
      forall y | y in xs - {x} ensures Key(shape, y) != Key(shape, x) {
        if Key(shape, y) == Key(shape, x) { KeysDistinct(shape, y, x); }
      }
      assert Keys(shape, xs) == Keys(shape, xs - {x}) + {Key(shape, x)};
    } else {
      assert Keys(shape, xs) == {};
    }
  }

  // ---- better isolation ----

  datatype Score = Score(crossPackage: nat, sharedCores: nat)

  ghost function ScoreOf(shape: Shape, pl: Placement): Score {
    Score(|CrossPackage(shape, pl)|, |SharedCores(shape, pl)|)
  }

  /** Fewer workloads over several packages, or as many and fewer shared cores. */
  predicate Better(cur: Score, new_: Score) {
    new_.crossPackage < cur.crossPackage
    || (new_.crossPackage == cur.crossPackage && new_.sharedCores < cur.sharedCores)
  }

  method HasBetterIsolation(cur: Cpu, new_: Cpu) returns (r: bool)
    requires cur.Valid() && new_.Valid()
    ensures r == Better(ScoreOf(cur.shape, cur.State()), ScoreOf(new_.shape, new_.State()))
    ensures var spread, spread' := CrossPackage(cur.shape, cur.State()), CrossPackage(new_.shape, new_.State());
            var shared, shared' := SharedCores(cur.shape, cur.State()), SharedCores(new_.shape, new_.State());
            r <==> |spread'| < |spread| || (|spread'| == |spread| && |shared'| < |shared|)
  {
    hide CrossPackage, SharedCores, WellFormed, Key, IdsOn, Reported, OnTwoPackages;
    var curCross := GetCrossPackageViolations(cur);
    var newCross := GetCrossPackageViolations(new_);
    var curShared := GetSharedCoreViolations(cur);
    var newShared := GetSharedCoreViolations(new_);
    assert |curCross| == |curCross.Keys| && |newCross| == |newCross.Keys|;
    var crossChange := |newCross| - |curCross|;
    var sharedChange := |newShared| - |curShared|;
    if crossChange < 0 {
      return true;
    }
    if crossChange > 0 {
      return false;
    }
    return sharedChange < 0;
  }

  /** A strict weak order: irreflexive, transitive, and being no better either way is transitive too. */
  lemma BetterIsStrictWeakOrder(a: Score, b: Score, c: Score)
    ensures !Better(a, a)
    ensures Better(a, b) && Better(b, c) ==> Better(a, c)
    ensures !Better(a, b) && !Better(b, a) && !Better(b, c) && !Better(c, b) ==> !Better(a, c) && !Better(c, a)
  {
  }

  ghost function Rank(s: Score, k: nat): nat { s.crossPackage * (k + 1) + s.sharedCores }

  lemma {:induction false} BetterRanksLower(cur: Score, new_: Score, k: nat)
    requires Better(cur, new_) && new_.sharedCores <= k
    ensures Rank(new_, k) < Rank(cur, k)
  {
    if new_.crossPackage < cur.crossPackage {
      assert new_.crossPackage * (k + 1) + (k + 1) == (new_.crossPackage + 1) * (k + 1);
      MulOrder(new_.crossPackage + 1, cur.crossPackage, k + 1);
    }
  }

  lemma MulOrder(a: nat, b: nat, k: nat)
    requires a <= b
    ensures a * k <= b * k
  {
    assert b * k == a * k + (b - a) * k;
  }

  lemma ScoreBounds(shape: Shape, pl: Placement)
    ensures ScoreOf(shape, pl).crossPackage <= |WorkloadsOn(pl)|
    ensures ScoreOf(shape, pl).sharedCores <= |Cores(shape)|
  {
    SubsetCard(CrossPackage(shape, pl), WorkloadsOn(pl));
    SubsetCard(SharedCores(shape, pl), Cores(shape));
  }

  /** Each placement is better isolated than the one before it, and none carries more than `w` workloads. */
  ghost predicate ImprovingChain(shape: Shape, chain: seq<Placement>, w: nat) {
    && (forall i :: 0 <= i < |chain| ==> |WorkloadsOn(chain[i])| <= w)
    && forall i :: 0 < i < |chain| ==> Better(ScoreOf(shape, chain[i - 1]), ScoreOf(shape, chain[i]))
  }

  lemma {:induction false} RankFalls(shape: Shape, chain: seq<Placement>, w: nat, i: nat)
    requires ImprovingChain(shape, chain, w) && i < |chain|
    ensures Rank(ScoreOf(shape, chain[i]), |Cores(shape)|) + i < (w + 1) * (|Cores(shape)| + 1)
    decreases i
  {
    hide ScoreOf, WorkloadsOn, Cores, Rank, Better;
    var k := |Cores(shape)|;
    ScoreBounds(shape, chain[i]);
    if i == 0 {
      RankBound(ScoreOf(shape, chain[0]), w, k);
    } else {
      RankFalls(shape, chain, w, i - 1);
      BetterRanksLower(ScoreOf(shape, chain[i - 1]), ScoreOf(shape, chain[i]), k);
    }
  }

  lemma RankBound(s: Score, w: nat, k: nat)
    requires s.crossPackage <= w && s.sharedCores <= k
    ensures Rank(s, k) < (w + 1) * (k + 1)
  {
    MulOrder(s.crossPackage, w, k + 1);
    assert (w + 1) * (k + 1) == w * (k + 1) + (k + 1);
  }

  /** Improvement terminates: no chain is longer than the number of scores there are. */
  lemma ImprovementTerminates(shape: Shape, chain: seq<Placement>, w: nat)
    requires ImprovingChain(shape, chain, w)
    ensures |chain| <= (w + 1) * (|Cores(shape)| + 1)
  {
    if chain != [] {
      RankFalls(shape, chain, w, |chain| - 1);
    } else {
      MulOrder(0, w + 1, |Cores(shape)| + 1);
    }
  }
}
