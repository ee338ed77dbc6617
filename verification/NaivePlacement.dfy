/**
  The naive allocator as a relation: which placements it may return, for whatever order the shuffles produce.
  A workload keeps its threads for as long as it stays in the request; a new one takes empty threads if there
  are enough, otherwise all of them and some claimed ones.
 */
module NaivePlacement {
  import opened Collections
  import opened Topology
  import opened GreedyPlacement

  /** The first loop: whatever the request does not mention leaves every thread. */
  function Purge(pl: Placement, ids: set<Id>): Placement { map t | t in pl :: pl[t] * ids }

  /** A choice of threads for a new workload of `k` threads, given what is claimed so far. */
  ghost predicate Fits(cur: Placement, k: nat, chosen: set<nat>) {
    && chosen <= cur.Keys && |chosen| == Min(k, |cur|)
    && (k <= |EmptySet(cur)| ==> chosen <= EmptySet(cur))
    && (k > |EmptySet(cur)| ==> EmptySet(cur) <= chosen)
  }

  ghost function PlaceChoices(pl: Placement, ws: seq<Workload>, choices: seq<set<nat>>): Placement
    requires |choices| == |ws|
  {
    if ws == [] then pl else
      var n := |ws| - 1;
      Claim(PlaceChoices(pl, ws[..n], choices[..n]), choices[n], ws[n].id)
  }

  /** Workloads found on the CPU are left alone, the others get a fitting choice in request order. */
  ghost predicate ChoicesFit(pl: Placement, ws: seq<Workload>, choices: seq<set<nat>>) {
    && |choices| == |ws|
    && forall j :: 0 <= j < |ws| ==>
         if ws[j].id in WorkloadsOn(pl) then choices[j] == {}
         else Fits(PlaceChoices(pl, ws[..j], choices[..j]), ws[j].count, choices[j])
  }

  /** `NaiveCpuAllocator.isolate` may turn `pl` into `pl'`. */
  ghost predicate NaiveMay(pl: Placement, ws: seq<Workload>, pl': Placement) {
    exists choices :: ChoicesFit(Purge(pl, Ids(ws)), ws, choices)
                   && pl' == PlaceChoices(Purge(pl, Ids(ws)), ws, choices)
  }

  lemma HeldAfterPurge(pl: Placement, ids: set<Id>, w: Id)
    ensures HeldBy(Purge(pl, ids), w) == if w in ids then HeldBy(pl, w) else {}
  {
  }

  /** What the workloads placed so far hold, and that nobody else has moved. */
  ghost predicate KeptOrPlaced(pl: Placement, ws: seq<Workload>, cur: Placement) {
    && cur.Keys == pl.Keys
    && (forall v :: v !in Ids(ws) ==> HeldBy(cur, v) == HeldBy(pl, v))
    && forall i :: 0 <= i < |ws| ==>
         if HeldBy(pl, ws[i].id) != {} then HeldBy(cur, ws[i].id) == HeldBy(pl, ws[i].id)
         else |HeldBy(cur, ws[i].id)| == Min(ws[i].count, |pl|)
  }

  lemma ClaimNothing(pl: Placement, w: Id)
    ensures Claim(pl, {}, w) == pl
  {
  }

  lemma {:induction false} PrefixChoices(pl: Placement, ws: seq<Workload>, choices: seq<set<nat>>, n: nat)
    requires ChoicesFit(pl, ws, choices) && n <= |ws|
    ensures ChoicesFit(pl, ws[..n], choices[..n])
  {
    forall j | 0 <= j < n
      ensures ws[..n][..j] == ws[..j] && choices[..n][..j] == choices[..j]
    {
    }
  }

  lemma {:induction false} PlacedFacts(pl: Placement, ws: seq<Workload>, choices: seq<set<nat>>)
    requires ChoicesFit(pl, ws, choices) && DistinctIds(ws)
    ensures KeptOrPlaced(pl, ws, PlaceChoices(pl, ws, choices))
    decreases |ws|
  {
    if ws != [] {
      var n := |ws| - 1;
      IdsPrefix(ws);
      PrefixChoices(pl, ws, choices, n);
      PlacedFacts(pl, ws[..n], choices[..n]);
      PlacedStep(pl, ws, PlaceChoices(pl, ws[..n], choices[..n]), choices[n]);
    }
  }

  lemma PlacedStep(pl: Placement, ws: seq<Workload>, cur: Placement, chosen: set<nat>)
    requires ws != [] && DistinctIds(ws) && KeptOrPlaced(pl, ws[..|ws| - 1], cur)
    requires var w := ws[|ws| - 1];
             if w.id in WorkloadsOn(pl) then chosen == {} else Fits(cur, w.count, chosen)
    ensures KeptOrPlaced(pl, ws, Claim(cur, chosen, ws[|ws| - 1].id))
  {
    hide WorkloadsOn, Claim, HeldBy, EmptySet, Ids, DistinctIds;
    var n := |ws| - 1;
    var w := ws[n];
    var init := ws[..n];
    var cur' := Claim(cur, chosen, w.id);
    IdsPrefix(ws);
    OnIffHeld(pl, w.id);
    ClaimFacts(cur, chosen, w.id);
    assert HeldBy(cur, w.id) == HeldBy(pl, w.id);
    forall i | 0 <= i < |ws|
      ensures if HeldBy(pl, ws[i].id) != {} then HeldBy(cur', ws[i].id) == HeldBy(pl, ws[i].id)
              else |HeldBy(cur', ws[i].id)| == Min(ws[i].count, |pl|)
    {
      if i < n {
        DistinctFromLast(ws, i);
        assert init[i] == ws[i];
      } else {
        SameSize(cur, pl);
        LastHolds(HeldBy(pl, w.id), chosen, HeldBy(cur', w.id));
      }
    }
  }

  lemma SameSize(pl: Placement, pl': Placement)
    requires pl.Keys == pl'.Keys
    ensures |pl| == |pl'|
  {
    assert |pl| == |pl.Keys| && |pl'| == |pl'.Keys|;
  }

  lemma LastHolds(held: set<nat>, chosen: set<nat>, after: set<nat>)
    requires after == held + chosen
    ensures held == {} ==> after == chosen
    ensures chosen == {} ==> after == held
  {
  }

  lemma DistinctFromLast(ws: seq<Workload>, i: nat)
    requires DistinctIds(ws) && i < |ws| - 1
    ensures ws[i].id != ws[|ws| - 1].id
  {
  }

  /**
    One call, whatever the shuffles do: nothing unrequested stays, a workload already on the CPU keeps exactly
    its threads, and a new one gets its count, or every thread if it asks for more than there are.
   */
  lemma NaiveStep(pl: Placement, ws: seq<Workload>, pl': Placement)
    requires NaiveMay(pl, ws, pl') && DistinctIds(ws)
    ensures pl'.Keys == pl.Keys
    ensures forall v :: v !in Ids(ws) ==> HeldBy(pl', v) == {}
    ensures forall w :: w in ws ==>
              if HeldBy(pl, w.id) != {} then HeldBy(pl', w.id) == HeldBy(pl, w.id)
              else |HeldBy(pl', w.id)| == Min(w.count, |pl|)
  {
    hide PlaceChoices, Purge, HeldBy, DistinctIds;
    var pl0 := Purge(pl, Ids(ws));
    var choices :| ChoicesFit(pl0, ws, choices) && pl' == PlaceChoices(pl0, ws, choices);
    PlacedFacts(pl0, ws, choices);
    PurgeKeys(pl, Ids(ws));
    forall v ensures HeldBy(pl0, v) == if v in Ids(ws) then HeldBy(pl, v) else {} {
      HeldAfterPurge(pl, Ids(ws), v);
    }
  }

  lemma PurgeKeys(pl: Placement, ids: set<Id>)
    ensures Purge(pl, ids).Keys == pl.Keys && |Purge(pl, ids)| == |pl|
  {
    assert |pl| == |pl.Keys| && |Purge(pl, ids)| == |Purge(pl, ids).Keys|;
  }

  // ---- empty threads first ----

  /** The threads asked for by those of the request that hold nothing. */
  ghost function NewDemand(pl: Placement, ws: seq<Workload>): nat {
    if ws == [] then 0 else
      var w := ws[|ws| - 1];
      NewDemand(pl, ws[..|ws| - 1]) + (if HeldBy(pl, w.id) == {} then w.count else 0)
  }

  /** As long as an empty thread is left, only empty threads have been claimed, each by one workload. */
  ghost predicate EmptyFirst(pl: Placement, cur: Placement) {
    && cur.Keys == pl.Keys
    && (forall t :: t in pl ==> pl[t] <= cur[t])
    && (EmptySet(cur) != {} ==> forall t :: t in pl ==> cur[t] == pl[t] || (pl[t] == {} && |cur[t]| == 1))
  }

  lemma {:induction false} PlacedEmptyFirst(pl: Placement, ws: seq<Workload>, choices: seq<set<nat>>)
    requires ChoicesFit(pl, ws, choices)
    ensures var cur := PlaceChoices(pl, ws, choices);
            && EmptyFirst(pl, cur)
            && |EmptySet(cur)| == Max(0, |EmptySet(pl)| - NewDemand(pl, ws))
    decreases |ws|
  {
    hide EmptySet, Claim, HeldBy, WorkloadsOn, EmptyFirst, Fits;
    if ws == [] {
      NothingPlaced(pl);
    } else {
      var n := |ws| - 1;
      PrefixChoices(pl, ws, choices, n);
      PlacedEmptyFirst(pl, ws[..n], choices[..n]);
      var cur := PlaceChoices(pl, ws[..n], choices[..n]);
      OnIffHeld(pl, ws[n].id);
      if ws[n].id in WorkloadsOn(pl) {
        ClaimNothing(cur, ws[n].id);
      } else {
        FittingStep(pl, cur, ws[n], choices[n]);
      }
    }
  }

  lemma NothingPlaced(pl: Placement)
    ensures EmptyFirst(pl, pl) && |EmptySet(pl)| == Max(0, |EmptySet(pl)|)
  {
  }

  lemma FittingStep(pl: Placement, cur: Placement, w: Workload, chosen: set<nat>)
    requires EmptyFirst(pl, cur) && Fits(cur, w.count, chosen)
    ensures EmptyFirst(pl, Claim(cur, chosen, w.id))
    ensures |EmptySet(Claim(cur, chosen, w.id))| == Max(0, |EmptySet(cur)| - w.count)
  {
    hide Claim, EmptySet, EmptyFirst;
    ClaimFacts(cur, chosen, w.id);
    SubsetCard(EmptySet(cur), cur.Keys) by { EmptyAmong(cur); }
    assert |cur| == |cur.Keys|;
    if w.count <= |EmptySet(cur)| {
      SubsetCard(chosen, EmptySet(cur));
      ClaimsEmpty(pl, cur, w.id, chosen);
    } else {
      assert EmptySet(cur) - chosen == {};
      ClaimsAll(pl, cur, w.id, chosen);
    }
  }

  lemma EmptyAmong(pl: Placement)
    ensures EmptySet(pl) <= pl.Keys
  {
  }

  lemma ClaimsEmpty(pl: Placement, cur: Placement, w: Id, chosen: set<nat>)
    requires EmptyFirst(pl, cur) && chosen <= EmptySet(cur)
    ensures EmptyFirst(pl, Claim(cur, chosen, w))
  {
    var cur' := Claim(cur, chosen, w);
    forall t | t in pl ensures pl[t] <= cur'[t] && (t in chosen ==> cur'[t] == {w} && pl[t] == {}) {
      assert t in chosen ==> cur[t] == {};
    }
    if t :| t in EmptySet(cur') {
      assert t in EmptySet(cur);
    }
  }

  lemma ClaimsAll(pl: Placement, cur: Placement, w: Id, chosen: set<nat>)
    requires EmptyFirst(pl, cur) && EmptySet(cur) <= chosen
    ensures EmptyFirst(pl, Claim(cur, chosen, w))
  {
    var cur' := Claim(cur, chosen, w);
    forall t | t in cur' ensures cur'[t] != {} {
      assert t in EmptySet(cur) || cur[t] != {};
      assert t in chosen ==> w in cur'[t];
    }
    assert EmptySet(cur') == {};
  }

  /**
    Empty threads are used before claimed ones are shared: after a call exactly those empty threads are gone that the
    new workloads asked for, and as long as one is left, every thread carries what it carried, or was empty and now
    carries one workload.
   */
  lemma NaiveUsesEmptyFirst(pl: Placement, ws: seq<Workload>, pl': Placement)
    requires NaiveMay(pl, ws, pl') && DistinctIds(ws)
    ensures var purged := Purge(pl, Ids(ws));
            && |EmptySet(pl')| == Max(0, |EmptySet(purged)| - NewDemand(pl, ws))
            && pl'.Keys == purged.Keys
            && (EmptySet(pl') != {} ==>
                  forall t :: t in pl' ==> pl'[t] == purged[t] || (purged[t] == {} && |pl'[t]| == 1))
  {
    hide PlaceChoices, Purge, EmptySet, Fits, Ids, NewDemand, WorkloadsOn;
    var pl0 := Purge(pl, Ids(ws));
    var choices :| ChoicesFit(pl0, ws, choices) && pl' == PlaceChoices(pl0, ws, choices);
    PlacedEmptyFirst(pl0, ws, choices);
    DemandAfterPurge(pl, ws, Ids(ws));
  }

  lemma {:induction false} DemandAfterPurge(pl: Placement, ws: seq<Workload>, ids: set<Id>)
    requires Ids(ws) <= ids
    ensures NewDemand(Purge(pl, ids), ws) == NewDemand(pl, ws)
    decreases |ws|
  {
    hide HeldBy, Purge;
    if ws != [] {
      var n := |ws| - 1;
      assert ws[n].id in Ids(ws);
      assert Ids(ws[..n]) <= Ids(ws) by {
        forall v | v in Ids(ws[..n]) ensures v in Ids(ws) {
          var i :| 0 <= i < n && ws[..n][i].id == v;
          assert ws[i].id == v;
        }
      }
      DemandAfterPurge(pl, ws[..n], ids);
      HeldAfterPurge(pl, ids, ws[n].id);
    }
  }

  /** Two placements on the same threads under which every workload holds the same threads are one. */
  lemma SameHolders(pl: Placement, pl': Placement)
    requires pl.Keys == pl'.Keys && forall v :: HeldBy(pl, v) == HeldBy(pl', v)
    ensures pl == pl'
  {
    forall t | t in pl ensures pl[t] == pl'[t] {
      forall v ensures v in pl[t] <==> v in pl'[t] {
        assert (v in pl[t] <==> t in HeldBy(pl, v)) && (v in pl'[t] <==> t in HeldBy(pl', v));
      }
    }
  }

  /** Right after a call, a call with the same request changes nothing. */
  lemma {:induction false} NaiveRebalance(pl: Placement, ws: seq<Workload>, pl': Placement, pl'': Placement)
    requires DistinctIds(ws) && NaiveMay(pl, ws, pl') && NaiveMay(pl', ws, pl'')
    ensures pl'' == pl'
  {
    hide NaiveMay, DistinctIds, HeldBy;
    NaiveStep(pl, ws, pl');
    NaiveStep(pl', ws, pl'');
    forall v ensures HeldBy(pl'', v) == HeldBy(pl', v) {
      if v in Ids(ws) {
        var i :| 0 <= i < |ws| && ws[i].id == v;
        assert ws[i] in ws;
      }
    }
    SameHolders(pl'', pl');
  }

  // ---- whole runs ----

  /** One call of a run: the request it served and the placement it returned. */
  datatype Call = Call(ws: seq<Workload>, pl: Placement)

  /** The placement that call `i` finds. */
  ghost function Before(start: Placement, run: seq<Call>, i: nat): Placement
    requires i <= |run|
  {
    if i == 0 then start else run[i - 1].pl
  }

  /** A run of the manager with the naive allocator, from an empty CPU. */
  ghost predicate IsRun(start: Placement, run: seq<Call>) {
    && AllEmpty(start)
    && forall i :: 0 <= i < |run| ==>
         DistinctIds(run[i].ws) && NaiveMay(Before(start, run, i), run[i].ws, run[i].pl)
  }

  /** The workload is held, with one count, from call `first` to call `last`. */
  ghost predicate HeldThroughout(run: seq<Call>, w: Workload, first: nat, last: nat) {
    first <= last < |run| && forall i :: first <= i <= last ==> w in run[i].ws
  }

  lemma {:induction false} CallFacts(start: Placement, run: seq<Call>, i: nat)
    requires IsRun(start, run) && i < |run|
    ensures var pl, ws, pl' := Before(start, run, i), run[i].ws, run[i].pl;
            && NaiveMay(pl, ws, pl') && DistinctIds(ws)
            && pl'.Keys == pl.Keys
            && (forall v :: v !in Ids(ws) ==> HeldBy(pl', v) == {})
            && forall w :: w in ws ==>
                 if HeldBy(pl, w.id) != {} then HeldBy(pl', w.id) == HeldBy(pl, w.id)
                 else |HeldBy(pl', w.id)| == Min(w.count, |pl|)
  {
    hide NaiveMay, DistinctIds, HeldBy, Ids;
    NaiveStep(Before(start, run, i), run[i].ws, run[i].pl);
  }

  lemma {:induction false} RunKeepsThreads(start: Placement, run: seq<Call>, i: nat)
    requires IsRun(start, run) && i < |run|
    ensures run[i].pl.Keys == start.Keys
    decreases i
  {
    hide NaiveMay, DistinctIds, HeldBy, Ids, AllEmpty;
    if i > 0 { RunKeepsThreads(start, run, i - 1); }
    CallFacts(start, run, i);
  }

  lemma EmptyHolds(pl: Placement, w: Id)
    requires AllEmpty(pl)
    ensures HeldBy(pl, w) == {}
  {
  }

  /**
    Stickiness over whole runs: from the call that adds it to the last that still holds it, a workload whose
    count does not change keeps one fixed set of threads, as many as it asked for or as there are.
   */
  lemma {:induction false} NaiveSticks(start: Placement, run: seq<Call>, w: Workload, first: nat, last: nat)
    requires IsRun(start, run) && HeldThroughout(run, w, first, last)
    requires first > 0 ==> w.id !in Ids(run[first - 1].ws)
    ensures HeldBy(run[last].pl, w.id) == HeldBy(run[first].pl, w.id)
    ensures |HeldBy(run[first].pl, w.id)| == Min(w.count, |start|)
    decreases last
  {
    hide NaiveMay, DistinctIds, HeldBy, Ids, AllEmpty;
    var before := Before(start, run, last);
    CallFacts(start, run, last);
    if last > 0 { RunKeepsThreads(start, run, last - 1); }
    assert |before| == |before.Keys| == |start.Keys| == |start|;
    if first < last {
      NaiveSticks(start, run, w, first, last - 1);
      assert w in run[last].ws;
      if HeldBy(before, w.id) == {} {
        assert |HeldBy(run[last].pl, w.id)| == 0;
      }
    } else {
      if last > 0 { CallFacts(start, run, last - 1); } else { EmptyHolds(start, w.id); }
      assert HeldBy(before, w.id) == {};
      assert w in run[last].ws;
    }
  }
}
