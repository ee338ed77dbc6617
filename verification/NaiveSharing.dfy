/** When the naive allocator shares a thread: for one call, and over whole runs. */
module NaiveSharing {
  import opened Collections
  import opened Topology
  import opened GreedyPlacement
  import opened NaivePlacement

  /** What a call will give a workload: what it already holds, or its count if there are that many threads. */
  ghost function Share(pl: Placement, w: Workload): nat {
    if HeldBy(pl, w.id) != {} then |HeldBy(pl, w.id)| else Min(w.count, |pl|)
  }

  ghost function Shares(pl: Placement, ws: seq<Workload>): seq<Workload> {
    seq(|ws|, i requires 0 <= i < |ws| => Workload(ws[i].id, Share(pl, ws[i])))
  }

  ghost function HeldUnion(pl: Placement, ws: seq<Workload>): set<nat> {
    if ws == [] then {} else HeldUnion(pl, ws[..|ws| - 1]) + HeldBy(pl, ws[|ws| - 1].id)
  }

  /** Nobody in the request holds more than its count. */
  ghost predicate WithinCounts(pl: Placement, ws: seq<Workload>) {
    forall i :: 0 <= i < |ws| ==> |HeldBy(pl, ws[i].id)| <= ws[i].count
  }

  /** Only requested workloads are on the CPU. */
  ghost predicate OnlyRequested(pl: Placement, ws: seq<Workload>) {
    forall v :: v !in Ids(ws) ==> HeldBy(pl, v) == {}
  }

  lemma {:induction false} HeldUnionCard(pl: Placement, ws: seq<Workload>)
    requires WithinCounts(pl, ws)
    ensures |HeldUnion(pl, ws)| <= Total(ws)
    ensures forall i :: 0 <= i < |ws| && HeldBy(pl, ws[i].id) == {} ==> |HeldUnion(pl, ws)| <= Total(ws) - ws[i].count
    decreases |ws|
  {
    hide HeldBy;
    if ws != [] {
      var n := |ws| - 1;
      var init := ws[..n];
      assert forall i :: 0 <= i < n ==> init[i] == ws[i];
      HeldUnionCard(pl, init);
      UnionCard(HeldUnion(pl, init), HeldBy(pl, ws[n].id));
      assert Total(ws) == Total(init) + ws[n].count && |HeldBy(pl, ws[n].id)| <= ws[n].count;
    }
  }

  lemma {:induction false} HeldUnionCovers(pl: Placement, ws: seq<Workload>, i: nat)
    requires i < |ws|
    ensures HeldBy(pl, ws[i].id) <= HeldUnion(pl, ws)
    decreases |ws|
  {
    if i < |ws| - 1 { HeldUnionCovers(pl, ws[..|ws| - 1], i); }
  }

  lemma ClaimedHeld(pl: Placement, ws: seq<Workload>)
    requires OnlyRequested(pl, ws)
    ensures ClaimedSet(pl) <= HeldUnion(pl, ws)
  {
    hide HeldUnion;
    forall t | t in ClaimedSet(pl) ensures t in HeldUnion(pl, ws) {
      var v :| v in pl[t];
      assert t in HeldBy(pl, v);
      var i :| 0 <= i < |ws| && ws[i].id == v;
      HeldUnionCovers(pl, ws, i);
    }
  }

  lemma EmptyCard(pl: Placement)
    ensures |EmptySet(pl)| == |pl| - |ClaimedSet(pl)|
  {
    assert EmptySet(pl) == pl.Keys - ClaimedSet(pl);
    SubsetCard(ClaimedSet(pl), pl.Keys);
    assert |pl| == |pl.Keys|;
  }

  /** A workload that is still waiting finds its threads empty. */
  lemma RoomForNewcomer(pl: Placement, ws: seq<Workload>, i: nat)
    requires WithinCounts(pl, ws) && OnlyRequested(pl, ws) && Total(ws) <= |pl|
    requires i < |ws| && HeldBy(pl, ws[i].id) == {}
    ensures ws[i].count <= |EmptySet(pl)|
  {
    hide *;
    hide HeldBy;
    HeldUnionCard(pl, ws);
    ClaimedHeld(pl, ws);
    SubsetCard(ClaimedSet(pl), HeldUnion(pl, ws));
    EmptyCard(pl);
  }

  /** A choice that fits takes empty threads only, when there are as many as it will take. */
  lemma FittingTakesEmpty(cur: Placement, k: nat, chosen: set<nat>)
    requires Fits(cur, k, chosen) && Min(k, |cur|) <= |EmptySet(cur)|
    ensures chosen <= EmptySet(cur)
  {
    if k > |EmptySet(cur)| {
      assert |cur| == |cur.Keys|;
      SubsetCard(EmptySet(cur), cur.Keys);
    }
  }

  lemma {:induction false} PlacedShareNothing(pl: Placement, ws: seq<Workload>, choices: seq<set<nat>>, n: nat)
    requires ChoicesFit(pl, ws, choices) && DistinctIds(ws) && n <= |ws|
    requires NoSharing(pl) && OnlyRequested(pl, ws) && Total(Shares(pl, ws)) <= |pl|
    ensures NoSharing(PlaceChoices(pl, ws[..n], choices[..n]))
    decreases n
  {
    hide *;
    hide NoSharing;
    if n > 0 {
      var i := n - 1;
      PlacedShareNothing(pl, ws, choices, i);
      assert |choices| == |ws| by { ChoiceEach(pl, ws, choices); }
      PlaceOne(pl, ws, choices, i);
      var cur := PlaceChoices(pl, ws[..i], choices[..i]);
      OnIffHeld(pl, ws[i].id);
      if ws[i].id in WorkloadsOn(pl) {
        ClaimNothing(cur, ws[i].id);
      } else {
        WaitingFindsRoom(pl, ws, choices, i);
        FittingTakesEmpty(cur, ws[i].count, choices[i]);
        ClaimSharesNothing(cur, choices[i], ws[i].id);
      }
    } else {
      assert PlaceChoices(pl, ws[..0], choices[..0]) == pl by { PlaceNone(pl); }
    }
  }

  lemma ChoiceEach(pl: Placement, ws: seq<Workload>, choices: seq<set<nat>>)
    requires ChoicesFit(pl, ws, choices)
    ensures |choices| == |ws|
  {
  }

  lemma PlaceNone(pl: Placement)
    ensures PlaceChoices(pl, [], []) == pl
  {
  }

  lemma PlaceOne(pl: Placement, ws: seq<Workload>, choices: seq<set<nat>>, i: nat)
    requires ChoicesFit(pl, ws, choices) && i < |ws|
    ensures var cur := PlaceChoices(pl, ws[..i], choices[..i]);
            && PlaceChoices(pl, ws[..i + 1], choices[..i + 1]) == Claim(cur, choices[i], ws[i].id)
            && if ws[i].id in WorkloadsOn(pl) then choices[i] == {} else Fits(cur, ws[i].count, choices[i])
  {
    assert ws[..i + 1][..i] == ws[..i] && choices[..i + 1][..i] == choices[..i];
  }

  lemma {:induction false} WaitingFindsRoom(pl: Placement, ws: seq<Workload>, choices: seq<set<nat>>, i: nat)
    requires ChoicesFit(pl, ws, choices) && DistinctIds(ws) && i < |ws|
    requires OnlyRequested(pl, ws) && Total(Shares(pl, ws)) <= |pl| && HeldBy(pl, ws[i].id) == {}
    ensures var cur := PlaceChoices(pl, ws[..i], choices[..i]);
            |cur| == |pl| && Min(ws[i].count, |pl|) <= |EmptySet(cur)|
  {
    hide PlaceChoices, WithinCounts, OnlyRequested, HeldBy, EmptySet, Total;
    var cur := PlaceChoices(pl, ws[..i], choices[..i]);
    PrefixChoices(pl, ws, choices, i);
    PlacedFacts(pl, ws[..i], choices[..i]);
    assert |cur| == |cur.Keys| == |pl.Keys| == |pl|;
    StillWithin(pl, ws, i, cur);
    RoomForNewcomer(cur, Shares(pl, ws), i);
  }

  lemma StillWithin(pl: Placement, ws: seq<Workload>, i: nat, cur: Placement)
    requires DistinctIds(ws) && i < |ws| && KeptOrPlaced(pl, ws[..i], cur) && OnlyRequested(pl, ws)
    ensures WithinCounts(cur, Shares(pl, ws)) && HeldBy(cur, ws[i].id) == HeldBy(pl, ws[i].id)
    ensures OnlyRequested(cur, Shares(pl, ws))
  {
    hide HeldBy;
    forall j | 0 <= j < |ws| ensures |HeldBy(cur, ws[j].id)| <= Share(pl, ws[j]) {
      if j < i {
        assert ws[..i][j] == ws[j];
      } else {
        assert ws[j].id !in Ids(ws[..i]);
      }
    }
    SameIds(pl, ws);
    assert ws[i].id !in Ids(ws[..i]);
    forall v | v !in Ids(ws) ensures v !in Ids(ws[..i]) {
      assert forall j :: 0 <= j < i ==> ws[..i][j].id == ws[j].id && ws[j].id in Ids(ws);
    }
  }

  lemma SameIds(pl: Placement, ws: seq<Workload>)
    ensures Ids(Shares(pl, ws)) == Ids(ws)
  {
    forall v | v in Ids(ws) ensures v in Ids(Shares(pl, ws)) {
      var i :| 0 <= i < |ws| && ws[i].id == v;
      assert Shares(pl, ws)[i].id == v;
    }
    forall v | v in Ids(Shares(pl, ws)) ensures v in Ids(ws) {
      var i :| 0 <= i < |ws| && Shares(pl, ws)[i].id == v;
      assert ws[i].id == v;
    }
  }

  lemma PurgeShares(pl: Placement, ws: seq<Workload>)
    ensures OnlyRequested(Purge(pl, Ids(ws)), ws)
    ensures Shares(Purge(pl, Ids(ws)), ws) == Shares(pl, ws)
  {
    PurgeKeys(pl, Ids(ws));
    forall v ensures HeldBy(Purge(pl, Ids(ws)), v) == if v in Ids(ws) then HeldBy(pl, v) else {} {
      HeldAfterPurge(pl, Ids(ws), v);
    }
    forall i | 0 <= i < |ws| ensures Share(Purge(pl, Ids(ws)), ws[i]) == Share(pl, ws[i]) {
      assert ws[i].id in Ids(ws);
    }
  }

  lemma PurgeUnshared(pl: Placement, ids: set<Id>)
    requires NoSharing(pl)
    ensures NoSharing(Purge(pl, ids))
  {
    forall t | t in pl ensures |pl[t] * ids| <= 1 {
      SubsetCard(pl[t] * ids, pl[t]);
    }
  }

  /** Claims are only ever added to a purged CPU: what was shared stays shared. */
  lemma {:induction false} PlacingShares(pl: Placement, ws: seq<Workload>, choices: seq<set<nat>>)
    requires |choices| == |ws| && NoSharing(PlaceChoices(pl, ws, choices))
    ensures NoSharing(pl)
    decreases |ws|
  {
    if ws != [] {
      var n := |ws| - 1;
      var cur := PlaceChoices(pl, ws[..n], choices[..n]);
      forall t | t in cur ensures |cur[t]| <= 1 {
        SubsetCard(cur[t], Claim(cur, choices[n], ws[n].id)[t]);
      }
      PlacingShares(pl, ws[..n], choices[..n]);
    }
  }

  /** Where no thread is shared, what the workloads hold adds up to no more than there is. */
  lemma {:induction false} HoldingsAddUp(pl: Placement, ws: seq<Workload>)
    requires NoSharing(pl) && DistinctIds(ws)
    requires forall i :: 0 <= i < |ws| ==> |HeldBy(pl, ws[i].id)| == ws[i].count
    ensures |HeldUnion(pl, ws)| == Total(ws)
    ensures forall t :: t in HeldUnion(pl, ws) ==> t in pl && exists v :: v in Ids(ws) && v in pl[t]
    decreases |ws|
  {
    if ws != [] {
      var n := |ws| - 1;
      var init := ws[..n];
      assert forall i :: 0 <= i < n ==> init[i] == ws[i];
      HoldingsAddUp(pl, init);
      IdsPrefix(ws);
      forall t | t in HeldUnion(pl, init) ensures t !in HeldBy(pl, ws[n].id) {
        var v :| v in Ids(init) && v in pl[t];
        TwoOnOneThread(pl, t, v, ws[n].id);
      }
      UnionCard(HeldUnion(pl, init), HeldBy(pl, ws[n].id));
    }
  }

  lemma TwoOnOneThread(pl: Placement, t: nat, v: Id, w: Id)
    requires NoSharing(pl) && t in pl && v != w && v in pl[t]
    ensures w !in pl[t]
  {
    if w in pl[t] { SubsetCard({v, w}, pl[t]); }
  }

  /**
    One call, whatever the shuffles do: it leaves no thread shared exactly when the requested workloads share none
    already and the threads they hold and the counts of the new ones add up to no more than there are.
   */
  lemma {:induction false} SharesNothingIff(pl: Placement, ws: seq<Workload>, pl': Placement)
    requires NaiveMay(pl, ws, pl') && DistinctIds(ws)
    ensures NoSharing(pl') <==> NoSharing(Purge(pl, Ids(ws))) && Total(Shares(pl, ws)) <= |pl|
  {
    hide PlaceChoices, NoSharing, Total, DistinctIds, Shares, OnlyRequested, Purge, Ids;
    var pl0 := Purge(pl, Ids(ws));
    var choices :| ChoicesFit(pl0, ws, choices) && pl' == PlaceChoices(pl0, ws, choices);
    PurgeShares(pl, ws);
    PurgeKeys(pl, Ids(ws));
    if NoSharing(pl0) && Total(Shares(pl, ws)) <= |pl| {
      PlacedShareNothing(pl0, ws, choices, |ws|);
      WholePrefix(ws);
      WholePrefix(choices);
    }
    if NoSharing(pl') {
      PlacingShares(pl0, ws, choices);
      UnsharedAddsUp(pl, ws, pl');
    }
  }

  lemma UnsharedAddsUp(pl: Placement, ws: seq<Workload>, pl': Placement)
    requires NaiveMay(pl, ws, pl') && DistinctIds(ws) && NoSharing(pl')
    ensures Total(Shares(pl, ws)) <= |pl|
  {
    hide NaiveMay, HeldBy, NoSharing, Ids;
    NaiveStep(pl, ws, pl');
    var ss := Shares(pl, ws);
    forall i | 0 <= i < |ws| ensures |HeldBy(pl', ss[i].id)| == ss[i].count {
      assert ws[i] in ws;
    }
    HoldingsAddUp(pl', ss);
    SubsetCard(HeldUnion(pl', ss), pl'.Keys);
    assert |pl| == |pl.Keys|;
  }

  // ---- whole runs ----

  /** What was asked at every call of a run. */
  ghost function Requests(run: seq<Call>): (reqs: seq<seq<Workload>>)
    ensures |reqs| == |run| && forall i :: 0 <= i < |run| ==> reqs[i] == run[i].ws
  {
    seq(|run|, i requires 0 <= i < |run| => run[i].ws)
  }

  /**
    What a workload holds after call `i` on `n` threads, by the requests alone: while it stays in the request it
    keeps what it has, and if it has nothing it gets its count, or every thread.
   */
  function Holding(n: nat, reqs: seq<seq<Workload>>, i: nat, id: Id): nat
    requires i < |reqs|
    decreases i
  {
    if id !in Ids(reqs[i]) then 0
    else if i > 0 && Holding(n, reqs, i - 1, id) > 0 then Holding(n, reqs, i - 1, id)
    else Min(CountIn(reqs[i], id), n)
  }

  /** The count of an id in a request. */
  function CountIn(ws: seq<Workload>, id: Id): nat {
    if ws == [] then 0 else
    if ws[|ws| - 1].id == id then ws[|ws| - 1].count else CountIn(ws[..|ws| - 1], id)
  }

  lemma {:induction false} CountOf(ws: seq<Workload>, k: nat)
    requires DistinctIds(ws) && k < |ws|
    ensures CountIn(ws, ws[k].id) == ws[k].count
    decreases |ws|
  {
    if k < |ws| - 1 {
      IdsPrefix(ws);
      DistinctFromLast(ws, k);
      CountOf(ws[..|ws| - 1], k);
    }
  }

  lemma {:induction false} HoldsAsRequested(start: Placement, run: seq<Call>, i: nat, id: Id)
    requires IsRun(start, run) && i < |run|
    ensures |HeldBy(run[i].pl, id)| == Holding(|start|, Requests(run), i, id)
    decreases i
  {
    hide NaiveMay, HeldBy, Ids, AllEmpty, DistinctIds, CountIn, IsRun, Holding, Requests;
    if i > 0 { HoldsAsRequested(start, run, i - 1, id); }
    HoldsAfterCall(start, run, i, id);
    HoldingUnfolds(|start|, Requests(run), i, id);
  }

  lemma HoldingUnfolds(n: nat, reqs: seq<seq<Workload>>, i: nat, id: Id)
    requires i < |reqs|
    ensures var before := if i == 0 then 0 else Holding(n, reqs, i - 1, id);
            Holding(n, reqs, i, id) ==
              if id !in Ids(reqs[i]) then 0 else if before > 0 then before else Min(CountIn(reqs[i], id), n)
  {
  }

  lemma HoldsAfterCall(start: Placement, run: seq<Call>, i: nat, id: Id)
    requires IsRun(start, run) && i < |run|
    ensures var before := if i == 0 then 0 else |HeldBy(run[i - 1].pl, id)|;
            |HeldBy(run[i].pl, id)| ==
              if id !in Ids(run[i].ws) then 0 else if before > 0 then before else Min(CountIn(run[i].ws, id), |start|)
  {
    hide NaiveMay, HeldBy, Ids, AllEmpty, CountIn;
    var before := Before(start, run, i);
    CallFacts(start, run, i);
    if i > 0 { RunKeepsThreads(start, run, i - 1); } else { EmptyHolds(start, id); }
    SameSize(before, start);
    if id in Ids(run[i].ws) {
      var k := IndexOf(run[i].ws, id);
      hide DistinctIds;
      CountOf(run[i].ws, k);
      assert run[i].ws[k] in run[i].ws;
    }
    assert |HeldBy(before, id)| == 0 <==> HeldBy(before, id) == {};
  }

  lemma IndexOf(ws: seq<Workload>, id: Id) returns (k: nat)
    requires id in Ids(ws)
    ensures k < |ws| && ws[k].id == id
  {
    k :| 0 <= k < |ws| && ws[k].id == id;
  }

  function Holdings(n: nat, reqs: seq<seq<Workload>>, i: nat): seq<Workload>
    requires i < |reqs|
  {
    seq(|reqs[i]|, k requires 0 <= k < |reqs[i]| => Workload(reqs[i][k].id, Holding(n, reqs, i, reqs[i][k].id)))
  }

  /** What the workloads of call `i` hold together, by the requests alone. */
  function Demand(n: nat, reqs: seq<seq<Workload>>, i: nat): nat
    requires i < |reqs|
  {
    Total(Holdings(n, reqs, i))
  }

  lemma {:induction false} SharesAreDemand(start: Placement, run: seq<Call>, i: nat)
    requires IsRun(start, run) && i < |run|
    ensures Total(Shares(Before(start, run, i), run[i].ws)) == Demand(|start|, Requests(run), i)
  {
    hide NaiveMay, HeldBy, AllEmpty, Total, Holding, Requests;
    var before, ws := Before(start, run, i), run[i].ws;
    CallFacts(start, run, i);
    if i > 0 { RunKeepsThreads(start, run, i - 1); }
    SameSize(before, start);
    forall k | 0 <= k < |ws| ensures Share(before, ws[k]) == Holding(|start|, Requests(run), i, ws[k].id) {
      HoldsAsRequested(start, run, i, ws[k].id);
      assert ws[k] in ws;
    }
    assert Shares(before, ws) == Holdings(|start|, Requests(run), i);
  }

  /**
    Over a whole run from an empty CPU, by the requests alone: no thread is ever shared exactly when what the
    workloads hold at every call adds up to no more than there is.
   */
  lemma {:induction false} NeverSharesIff(start: Placement, run: seq<Call>)
    requires IsRun(start, run)
    ensures (forall i :: 0 <= i < |run| ==> NoSharing(run[i].pl)) <==>
            (forall i :: 0 <= i < |run| ==> Demand(|start|, Requests(run), i) <= |start|)
  {
    hide NaiveMay, DistinctIds, NoSharing, Total, Shares, AllEmpty, Demand, Requests;
    EmptyHoldsNothing(start, []);
    forall i | 0 <= i < |run|
      ensures NoSharing(Before(start, run, i)) ==>
                (NoSharing(run[i].pl) <==> Demand(|start|, Requests(run), i) <= |start|)
    {
      SharesAreDemand(start, run, i);
      if NoSharing(Before(start, run, i)) { CallShares(start, run, i); }
    }
    if forall i :: 0 <= i < |run| ==> Demand(|start|, Requests(run), i) <= |start| {
      forall i | 0 <= i < |run| ensures NoSharing(run[i].pl) {
        RoomMeansUnshared(start, run, i);
      }
    }
  }

  lemma {:induction false} CallShares(start: Placement, run: seq<Call>, i: nat)
    requires IsRun(start, run) && i < |run| && NoSharing(Before(start, run, i))
    ensures NoSharing(run[i].pl) <==> Total(Shares(Before(start, run, i), run[i].ws)) <= |start|
  {
    hide NaiveMay, DistinctIds, NoSharing, Total, Shares, AllEmpty;
    if i > 0 { RunKeepsThreads(start, run, i - 1); }
    var before := Before(start, run, i);
    assert |before| == |before.Keys| == |start.Keys| == |start|;
    PurgeUnshared(before, Ids(run[i].ws));
    SharesNothingIff(before, run[i].ws, run[i].pl);
  }

  lemma {:induction false} RoomMeansUnshared(start: Placement, run: seq<Call>, i: nat)
    requires IsRun(start, run) && i < |run|
    requires forall j :: 0 <= j <= i ==> Demand(|start|, Requests(run), j) <= |start|
    ensures NoSharing(run[i].pl)
    decreases i
  {
    hide NaiveMay, DistinctIds, NoSharing, Total, Shares, AllEmpty, Demand, Requests, IsRun;
    assert NoSharing(start) by { StartUnshared(start, run); }
    if i > 0 { RoomMeansUnshared(start, run, i - 1); }
    SharesAreDemand(start, run, i);
    CallShares(start, run, i);
  }

  lemma StartUnshared(start: Placement, run: seq<Call>)
    requires IsRun(start, run)
    ensures NoSharing(start)
  {
    EmptyHoldsNothing(start, []);
  }

  lemma EmptyHoldsNothing(pl: Placement, ws: seq<Workload>)
    requires AllEmpty(pl)
    ensures NoSharing(pl) && WithinCounts(pl, ws)
  {
    forall v ensures HeldBy(pl, v) == {} {
    }
  }

  /** The demand fits at every call and no workload asks for less while it is held. */
  ghost predicate DemandFits(start: Placement, run: seq<Call>) {
    && (forall i :: 0 <= i < |run| ==> Total(run[i].ws) <= |start|)
    && forall i, v, w :: 0 < i < |run| && v in run[i - 1].ws && w in run[i].ws && v.id == w.id ==> v.count <= w.count
  }

  /** In such a run no thread is ever shared, and nobody holds more than its count. */
  lemma {:induction false} NaiveNeverShares(start: Placement, run: seq<Call>, i: nat)
    requires IsRun(start, run) && DemandFits(start, run) && i < |run|
    ensures NoSharing(run[i].pl) && WithinCounts(run[i].pl, run[i].ws)
    decreases i
  {
    hide NaiveMay, DistinctIds, Total, NoSharing, HeldBy, AllEmpty, Shares, Ids;
    var before := Before(start, run, i);
    var ws := run[i].ws;
    if i > 0 {
      NaiveNeverShares(start, run, i - 1);
      CountsCarryOver(start, run, i);
    } else {
      EmptyHoldsNothing(start, ws);
    }
    SharesWithinCounts(before, ws);
    CallShares(start, run, i);
    CallFacts(start, run, i);
    forall j | 0 <= j < |ws| ensures |HeldBy(run[i].pl, ws[j].id)| <= ws[j].count {
      assert ws[j] in ws;
    }
  }

  lemma SharesWithinCounts(pl: Placement, ws: seq<Workload>)
    requires WithinCounts(pl, ws)
    ensures Total(Shares(pl, ws)) <= Total(ws)
  {
    hide HeldBy;
    TotalMonotone(Shares(pl, ws), ws);
  }

  lemma {:induction false} TotalMonotone(vs: seq<Workload>, ws: seq<Workload>)
    requires |vs| == |ws| && forall i :: 0 <= i < |ws| ==> vs[i].count <= ws[i].count
    ensures Total(vs) <= Total(ws)
    decreases |ws|
  {
    if ws != [] { TotalMonotone(vs[..|ws| - 1], ws[..|ws| - 1]); }
  }

  lemma {:induction false} CountsCarryOver(start: Placement, run: seq<Call>, i: nat)
    requires IsRun(start, run) && DemandFits(start, run) && 0 < i < |run|
    requires WithinCounts(run[i - 1].pl, run[i - 1].ws)
    ensures WithinCounts(run[i - 1].pl, run[i].ws)
  {
    hide NaiveMay, DistinctIds, Total, HeldBy;
    var pl, vs, ws := run[i - 1].pl, run[i - 1].ws, run[i].ws;
    CallFacts(start, run, i - 1);
    forall j | 0 <= j < |ws| ensures |HeldBy(pl, ws[j].id)| <= ws[j].count {
      if ws[j].id in Ids(vs) {
        var k :| 0 <= k < |vs| && vs[k].id == ws[j].id;
        assert vs[k] in vs && ws[j] in ws;
      }
    }
  }

  /**
    Fitting counts alone are not enough. A workload that comes back with a smaller count keeps all it holds:
    two threads, a demand of two at both calls, and still a shared thread.
   */
  lemma {:induction false} ShrinkingShares() returns (start: Placement, run: seq<Call>)
    ensures IsRun(start, run) && forall i :: 0 <= i < |run| ==> Total(run[i].ws) <= |start|
    ensures run != [] && !NoSharing(run[|run| - 1].pl)
  {
    hide NaiveMay, IsRun, Total;
    start := map[0 := {}, 1 := {}];
    var v, v', w := Workload("v", 2), Workload("v", 1), Workload("w", 1);
    var full := map[0 := {"v"}, 1 := {"v"}];
    var shared := map[0 := {"v", "w"}, 1 := {"v"}];
    run := [Call([v], full), Call([v', w], shared)];
    FirstCall(start, v, full);
    SecondCall(full, v', w, shared);
    TwoCalls(start, [v], full, [v', w], shared);
    TwoTotals(v, v', w);
    assert shared[0] == {"v", "w"} && |shared[0]| == 2;
  }

  lemma TwoCalls(start: Placement, vs: seq<Workload>, mid: Placement, ws: seq<Workload>, end: Placement)
    requires AllEmpty(start) && NaiveMay(start, vs, mid) && NaiveMay(mid, ws, end)
    requires DistinctIds(vs) && DistinctIds(ws)
    ensures IsRun(start, [Call(vs, mid), Call(ws, end)])
  {
    hide NaiveMay, DistinctIds, AllEmpty;
    var run := [Call(vs, mid), Call(ws, end)];
    forall i | 0 <= i < |run| ensures NaiveMay(Before(start, run, i), run[i].ws, run[i].pl) && DistinctIds(run[i].ws) {
      assert i == 0 || i == 1;
    }
  }

  lemma TwoTotals(u: Workload, v: Workload, w: Workload)
    ensures Total([u]) == u.count && Total([v, w]) == v.count + w.count
  {
    assert [u][..0] == [] && [v][..0] == [] && [v, w][..1] == [v];
  }

  lemma PurgeNobody(pl: Placement, ids: set<Id>)
    requires forall t :: t in pl ==> pl[t] <= ids
    ensures Purge(pl, ids) == pl
  {
    assert forall t :: t in pl ==> pl[t] * ids == pl[t];
  }

  lemma MayOne(pl: Placement, w: Workload, chosen: set<nat>)
    requires AllEmpty(pl) && Fits(pl, w.count, chosen)
    ensures NaiveMay(pl, [w], Claim(pl, chosen, w.id))
  {
    hide Fits, Claim;
    var pl0 := Purge(pl, Ids([w]));
    PurgeNobody(pl, Ids([w]));
    assert w.id !in WorkloadsOn(pl);
    var choices: seq<set<nat>> := [chosen];
    assert [w][..0] == [] && choices[..0] == [];
    assert ChoicesFit(pl, [w], choices) && PlaceChoices(pl, [w], choices) == Claim(pl, chosen, w.id);
  }

  lemma MayTwo(pl: Placement, v: Workload, w: Workload, chosen: set<nat>)
    requires pl != map[] && (forall t :: t in pl ==> pl[t] == {v.id}) && v.id != w.id && Fits(pl, w.count, chosen)
    ensures NaiveMay(pl, [v, w], Claim(pl, chosen, w.id))
  {
    hide Fits, Claim;
    var ws := [v, w];
    var pl0 := Purge(pl, Ids(ws));
    assert ws[0].id in Ids(ws);
    PurgeNobody(pl, Ids(ws));
    assert w.id !in WorkloadsOn(pl);
    assert v.id in WorkloadsOn(pl) by {
      var t :| t in pl;
      assert v.id in pl[t];
    }
    var choices: seq<set<nat>> := [{}, chosen];
    assert PlaceChoices(pl, ws[..1], choices[..1]) == pl by {
      assert ws[..1] == [v] && choices[..1] == [{}] && ws[..1][..0] == [] && choices[..1][..0] == [];
      ClaimNothing(pl, v.id);
    }
    assert ChoicesFit(pl, ws, choices) && PlaceChoices(pl, ws, choices) == Claim(pl, chosen, w.id);
  }

  lemma FirstCall(start: Placement, v: Workload, full: Placement)
    requires start == map[0 := {}, 1 := {}] && v == Workload("v", 2) && full == map[0 := {"v"}, 1 := {"v"}]
    ensures NaiveMay(start, [v], full) && |start| == 2
  {
    hide NaiveMay;
    assert start.Keys == {0, 1} && EmptySet(start) == {0, 1} && |start| == |start.Keys|;
    MayOne(start, v, {0, 1});
    assert Claim(start, {0, 1}, "v") == full;
  }

  lemma SecondCall(full: Placement, v: Workload, w: Workload, shared: Placement)
    requires v == Workload("v", 1) && w == Workload("w", 1)
    requires full == map[0 := {"v"}, 1 := {"v"}] && shared == map[0 := {"v", "w"}, 1 := {"v"}]
    ensures NaiveMay(full, [v, w], shared)
  {
    hide NaiveMay;
    assert full.Keys == {0, 1} && EmptySet(full) == {} && |full| == |full.Keys|;
    assert v.id != w.id;
    MayTwo(full, v, w, {0});
    assert {"v"} + {"w"} == {"v", "w"};
    assert Claim(full, {0}, "w") == shared;
  }
}
