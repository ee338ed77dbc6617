/** Asked again with the same request: which allocators give the same answer, and what the manager then does. */
module Rebalancing {
  import opened Collections
  import opened Topology
  import opened GreedyPlacement
  import opened NaivePlacement
  import opened NaiveSharing
  import opened Allocations
  import opened Allocators
  import opened Fallback
  import opened WorkloadMap
  import opened Cgroups
  import opened Manager
  import opened WriteCache

  lemma ClearedAlike(shape: Shape, pl: Placement, pl': Placement, ws: seq<Workload>)
    requires pl.Keys == pl'.Keys
    ensures GreedyIsolate(shape, pl', ws) == GreedyIsolate(shape, pl, ws)
  {
    assert Cleared(pl') == Cleared(pl);
  }

  /** The greedy allocator clears the CPU and computes the same again, the naive one leaves everybody in place. */
  lemma BasicRepeats(basic: Basic, shape: Shape, pl: Placement, ws: seq<Workload>, flags: Flags,
                     foreign: Attempt, out: Attempt, foreign': Attempt, again: Attempt)
    requires WellFormed(shape) && Covers(shape, pl) && DistinctIds(ws) && !basic.Foreign? && out.Answered?
    requires BasicMay(basic, shape, pl, ws, flags, foreign, out)
    requires BasicMay(basic, shape, out.response.pl, ws, flags, foreign', again)
    ensures again == out
  {
    hide NaiveMay, WellFormed, DistinctIds, GreedyIsolate, AllocationsOf, HeldBy, Lists;
    BasicServes(basic, shape, pl, ws, flags, foreign, out);
    match basic
    case Greedy => ClearedAlike(shape, pl, out.response.pl, ws);
    case Naive => NaiveRebalance(pl, ws, out.response.pl, again.response.pl);
  }

  // ---- naive choices on a full CPU ----

  /** Every workload that finds the CPU taken up by those before it asks for nothing or for every thread. */
  ghost predicate Forced(n: nat, ws: seq<Workload>) {
    forall j :: 0 <= j < |ws| && Total(ws[..j]) >= n ==> ws[j].count == 0 || ws[j].count >= n
  }

  /** On a full CPU a new workload may be given any threads, as many as it asks for or as there are. */
  ghost predicate FreeChoice(pl: Placement, w: Workload, chosen: set<nat>) {
    if w.id in WorkloadsOn(pl) then chosen == {} else chosen <= pl.Keys && |chosen| == Min(w.count, |pl|)
  }

  lemma {:induction false} FullStays(pl: Placement, ws: seq<Workload>, choices: seq<set<nat>>)
    requires EmptySet(pl) == {} && |choices| == |ws|
    ensures PlaceChoices(pl, ws, choices).Keys == pl.Keys && EmptySet(PlaceChoices(pl, ws, choices)) == {}
    decreases |ws|
  {
    if ws != [] {
      var n := |ws| - 1;
      FullStays(pl, ws[..n], choices[..n]);
      FullClaim(PlaceChoices(pl, ws[..n], choices[..n]), choices[n], ws[n].id);
    }
  }

  lemma FullClaim(pl: Placement, chosen: set<nat>, w: Id)
    requires EmptySet(pl) == {}
    ensures Claim(pl, chosen, w).Keys == pl.Keys && EmptySet(Claim(pl, chosen, w)) == {}
  {
    forall t | t in pl ensures pl[t] != {} {
      assert t !in EmptySet(pl);
    }
  }

  lemma FullFits(pl: Placement, ws: seq<Workload>, choices: seq<set<nat>>)
    requires EmptySet(pl) == {} && |choices| == |ws|
    ensures ChoicesFit(pl, ws, choices) <==> forall j :: 0 <= j < |ws| ==> FreeChoice(pl, ws[j], choices[j])
  {
    hide PlaceChoices, EmptySet, WorkloadsOn;
    forall j | 0 <= j < |ws|
      ensures Fits(PlaceChoices(pl, ws[..j], choices[..j]), ws[j].count, choices[j]) <==>
              choices[j] <= pl.Keys && |choices[j]| == Min(ws[j].count, |pl|)
    {
      FullStays(pl, ws[..j], choices[..j]);
      FitsWhenFull(pl, PlaceChoices(pl, ws[..j], choices[..j]), ws[j].count, choices[j]);
    }
  }

  lemma FitsWhenFull(pl: Placement, cur: Placement, k: nat, chosen: set<nat>)
    requires cur.Keys == pl.Keys && EmptySet(cur) == {}
    ensures Fits(cur, k, chosen) <==> chosen <= pl.Keys && |chosen| == Min(k, |pl|)
  {
    SameSize(cur, pl);
  }

  lemma {:induction false} FullHolds(pl: Placement, ws: seq<Workload>, choices: seq<set<nat>>, j: nat)
    requires ChoicesFit(pl, ws, choices) && DistinctIds(ws) && j < |ws| && ws[j].id !in WorkloadsOn(pl)
    ensures HeldBy(PlaceChoices(pl, ws, choices), ws[j].id) == choices[j]
    decreases |ws|
  {
    hide HeldBy, WorkloadsOn, EmptySet, Claim, Fits;
    var n := |ws| - 1;
    var cur := PlaceChoices(pl, ws[..n], choices[..n]);
    PrefixChoices(pl, ws, choices, n);
    IdsPrefix(ws);
    PlacedFacts(pl, ws[..n], choices[..n]);
    OnIffHeld(pl, ws[j].id);
    assert choices[n] <= cur.Keys by { ChoiceInKeys(pl, ws, choices, n); }
    ClaimFacts(cur, choices[n], ws[n].id);
    if j < n {
      DistinctFromLast(ws, j);
      FullHolds(pl, ws[..n], choices[..n], j);
    }
  }

  lemma ChoiceInKeys(pl: Placement, ws: seq<Workload>, choices: seq<set<nat>>, j: nat)
    requires ChoicesFit(pl, ws, choices) && j < |ws|
    ensures choices[j] <= PlaceChoices(pl, ws[..j], choices[..j]).Keys
  {
    hide PlaceChoices, WorkloadsOn;
  }

  /** Between none and all of `s`, there is always another choice of as many. */
  lemma OtherChoice(s: set<nat>, chosen: set<nat>) returns (other: set<nat>)
    requires chosen <= s && 0 < |chosen| < |s|
    ensures other <= s && |other| == |chosen| && other != chosen
  {
    var x :| x in chosen;
    SubsetCard(chosen, s);
    assert s - chosen != {};
    var y :| y in s - chosen;
    other := chosen - {x} + {y};
    assert y in other;
  }

  lemma SomeChoice(s: set<nat>, k: nat) returns (chosen: set<nat>)
    requires k <= |s|
    ensures chosen <= s && |chosen| == k
  {
    chosen := s;
    while |chosen| > k
      invariant chosen <= s && |chosen| >= k
    {
      var x :| x in chosen;
      chosen := chosen - {x};
    }
  }

  lemma SomeChoices(pl: Placement, ws: seq<Workload>) returns (choices: seq<set<nat>>)
    ensures |choices| == |ws| && forall j :: 0 <= j < |ws| ==> FreeChoice(pl, ws[j], choices[j])
  {
    choices := [];
    assert |pl| == |pl.Keys|;
    for j := 0 to |ws|
      invariant |choices| == j && forall k :: 0 <= k < j ==> FreeChoice(pl, ws[k], choices[k])
    {
      var chosen := {};
      if ws[j].id !in WorkloadsOn(pl) {
        chosen := SomeChoice(pl.Keys, Min(ws[j].count, |pl|));
      }
      choices := choices + [chosen];
    }
  }

  /** On a full CPU that carries requested workloads only, the naive allocator has something to choose. */
  lemma {:induction false} NaiveMayFull(pl: Placement, ws: seq<Workload>, choices: seq<set<nat>>)
    requires EmptySet(pl) == {} && OnlyRequested(pl, ws)
    requires |choices| == |ws| && forall j :: 0 <= j < |ws| ==> FreeChoice(pl, ws[j], choices[j])
    ensures NaiveMay(pl, ws, PlaceChoices(pl, ws, choices)) && ChoicesFit(pl, ws, choices)
  {
    hide PlaceChoices, FreeChoice, EmptySet;
    FullFits(pl, ws, choices);
    NothingToPurge(pl, ws);
  }

  lemma NothingToPurge(pl: Placement, ws: seq<Workload>)
    requires OnlyRequested(pl, ws)
    ensures Purge(pl, Ids(ws)) == pl
  {
    forall t, v | t in pl && v in pl[t] ensures v in Ids(ws) {
      assert t in HeldBy(pl, v);
    }
    PurgeNobody(pl, Ids(ws));
  }

  /** The new workloads ask for nothing or for every thread. */
  ghost predicate NewcomersForced(pl: Placement, ws: seq<Workload>) {
    forall j :: 0 <= j < |ws| && HeldBy(pl, ws[j].id) == {} ==> ws[j].count == 0 || ws[j].count >= |pl|
  }

  lemma {:induction false} ForcedMeansSame(pl: Placement, ws: seq<Workload>, pl1: Placement, pl2: Placement)
    requires DistinctIds(ws) && NewcomersForced(pl, ws) && NaiveMay(pl, ws, pl1) && NaiveMay(pl, ws, pl2)
    ensures pl1 == pl2
  {
    hide NaiveMay, DistinctIds, HeldBy;
    NaiveStep(pl, ws, pl1);
    NaiveStep(pl, ws, pl2);
    forall v ensures HeldBy(pl1, v) == HeldBy(pl2, v) {
      if v in Ids(ws) {
        var i :| 0 <= i < |ws| && ws[i].id == v;
        assert ws[i] in ws;
        AllOrNothing(pl, pl1, v);
        AllOrNothing(pl, pl2, v);
      }
    }
    SameHolders(pl1, pl2);
  }

  lemma AllOrNothing(pl: Placement, pl': Placement, v: Id)
    requires pl'.Keys == pl.Keys
    ensures |HeldBy(pl', v)| == 0 ==> HeldBy(pl', v) == {}
    ensures |HeldBy(pl', v)| == |pl| ==> HeldBy(pl', v) == pl.Keys
  {
    assert |pl| == |pl.Keys|;
    SubsetCard(HeldBy(pl', v), pl.Keys);
  }

  /** Otherwise two results of the naive allocator differ. */
  lemma {:induction false} UnforcedMeansTwo(pl: Placement, ws: seq<Workload>) returns (pl1: Placement, pl2: Placement)
    requires EmptySet(pl) == {} && OnlyRequested(pl, ws) && DistinctIds(ws) && !NewcomersForced(pl, ws)
    ensures NaiveMay(pl, ws, pl1) && NaiveMay(pl, ws, pl2) && pl1 != pl2
  {
    hide NaiveMay, DistinctIds, HeldBy, PlaceChoices, ChoicesFit, WorkloadsOn, EmptySet, OnlyRequested;
    var j :| 0 <= j < |ws| && HeldBy(pl, ws[j].id) == {} && 0 < ws[j].count < |pl|;
    assert |pl| == |pl.Keys|;
    OnIffHeld(pl, ws[j].id);
    var choices := SomeChoices(pl, ws);
    assert FreeChoice(pl, ws[j], choices[j]);
    var other := OtherChoice(pl.Keys, choices[j]);
    var choices' := choices[j := other];
    NaiveMayFull(pl, ws, choices);
    NaiveMayFull(pl, ws, choices');
    FullHolds(pl, ws, choices, j);
    FullHolds(pl, ws, choices', j);
    pl1, pl2 := PlaceChoices(pl, ws, choices), PlaceChoices(pl, ws, choices');
  }

  // ---- greedy backed by naive ----

  lemma {:induction false} TotalGrows(ws: seq<Workload>, j: nat, k: nat)
    requires j <= k <= |ws|
    ensures Total(ws[..j]) <= Total(ws[..k])
    ensures j < k ==> Total(ws[..j]) + ws[j].count <= Total(ws[..k])
    decreases k
  {
    if j < k {
      assert ws[..k][..k - 1] == ws[..k - 1];
      TotalGrows(ws, j, k - 1);
    }
  }

  lemma {:induction false} FirstOverflow(ws: seq<Workload>, n: nat) returns (i: nat)
    requires Total(ws) > n
    ensures i < |ws| && Total(ws[..i]) <= n < Total(ws[..i]) + ws[i].count
    decreases |ws|
  {
    var init := ws[..|ws| - 1];
    if Total(init) > n {
      i := FirstOverflow(init, n);
      assert init[..i] == ws[..i];
    } else {
      i := |ws| - 1;
    }
  }

  /** Demand that fits is forced: whoever finds the CPU taken up asks for nothing. */
  lemma {:induction false} FittingIsForced(n: nat, ws: seq<Workload>)
    requires Total(ws) <= n
    ensures Forced(n, ws)
  {
    hide Total;
    WholePrefix(ws);
    forall j | 0 <= j < |ws| && Total(ws[..j]) >= n ensures ws[j].count == 0 {
      TotalGrows(ws, j, |ws|);
    }
  }

  /** On the CPU that an overflowing greedy call leaves, the new workloads are those that found it taken up. */
  lemma ForcedAfterOverflow(shape: Shape, pl: Placement, ws: seq<Workload>)
    requires WellFormed(shape) && Covers(shape, pl) && DistinctIds(ws) && Total(ws) > |Threads(shape)|
    ensures var left := GreedyIsolate(shape, pl, ws).pl;
            && Covers(shape, left) && EmptySet(left) == {} && OnlyRequested(left, ws)
            && (NewcomersForced(left, ws) <==> Forced(|Threads(shape)|, ws))
  {
    hide WellFormed, DistinctIds, GreedyIsolate, HeldBy, EmptySet, Total, Threads, ClaimedSet;
    var n := |Threads(shape)|;
    var left := GreedyIsolate(shape, pl, ws).pl;
    var i := FirstOverflow(ws, n);
    GreedyExact(shape, pl, ws);
    GreedyOverflow(shape, pl, ws, i);
    GreedyOnlyRequested(shape, pl, ws);
    CoversCard(shape, left);
    forall j | 0 <= j < |ws|
      ensures HeldBy(left, ws[j].id) == {} && ws[j].count > 0 <==> Total(ws[..j]) >= n && ws[j].count > 0
    {
      EmptyIffZero(HeldBy(left, ws[j].id));
      if j <= i { TotalGrows(ws, j, i); } else { TotalGrows(ws, i, j); }
    }
  }

  lemma EmptyIffZero(s: set<nat>)
    ensures |s| == 0 <==> s == {}
  {
  }

  lemma GreedyOnlyRequested(shape: Shape, pl: Placement, ws: seq<Workload>)
    requires WellFormed(shape) && Covers(shape, pl) && DistinctIds(ws)
    ensures OnlyRequested(GreedyIsolate(shape, pl, ws).pl, ws)
  {
    ClearedFacts(shape, pl);
    PlaceAllAccounted(shape, Cleared(pl), ws);
  }

  /** While the queue is not too deep, greedy backed by naive always repeats its answer. */
  ghost predicate Repeats(shape: Shape, pl: Placement, ws: seq<Workload>, flags: Flags, depth: nat) {
    var allocator := Backed(Greedy, Naive, depth);
    forall outside, out: Attempt, outside', again ::
      && !TooDeep(depth, outside) && !TooDeep(depth, outside') && out.Answered?
      && May(allocator, shape, pl, ws, flags, outside, out)
      && May(allocator, shape, out.response.pl, ws, flags, outside', again)
      ==> again == out
  }

  lemma {:induction false} FallbackRepeats(shape: Shape, pl: Placement, ws: seq<Workload>, flags: Flags, depth: nat,
                                           outside: Outside, out: Attempt, outside': Outside, again: Attempt)
    requires WellFormed(shape) && Covers(shape, pl) && DistinctIds(ws) && Forced(|Threads(shape)|, ws)
    requires !TooDeep(depth, outside) && !TooDeep(depth, outside') && out.Answered?
    requires May(Backed(Greedy, Naive, depth), shape, pl, ws, flags, outside, out)
    requires May(Backed(Greedy, Naive, depth), shape, out.response.pl, ws, flags, outside', again)
    ensures again == out
  {
    hide WellFormed, DistinctIds, Forced, GreedyIsolate, NaiveMay, AllocationsOf, NewcomersForced, HeldBy;
    AllocatorsServe(Backed(Greedy, Naive, depth), shape, pl, ws, flags, outside, out);
    ClearedAlike(shape, pl, out.response.pl, ws);
    GreedyExact(shape, pl, ws);
    if Total(ws) > |Threads(shape)| {
      ForcedAfterOverflow(shape, pl, ws);
      OverflowFallsBack(shape, pl, ws, flags, depth, outside, out);
      OverflowFallsBack(shape, out.response.pl, ws, flags, depth, outside', again);
      ForcedMeansSame(GreedyIsolate(shape, pl, ws).pl, ws, out.response.pl, again.response.pl);
    }
  }

  /**
    Exactly when greedy backed by naive repeats its answer: every workload that finds the CPU taken up by those
    before it must ask for nothing or for every thread. In particular it does when the demand fits.
   */
  lemma FallbackRepeatsIff(shape: Shape, pl: Placement, ws: seq<Workload>, flags: Flags, depth: nat)
    requires WellFormed(shape) && Covers(shape, pl) && DistinctIds(ws)
    ensures Repeats(shape, pl, ws, flags, depth) <==> Forced(|Threads(shape)|, ws)
  {
    hide WellFormed, DistinctIds, Forced, May, Covers, Total;
    if Forced(|Threads(shape)|, ws) {
      forall outside, out: Attempt, outside', again |
        && !TooDeep(depth, outside) && !TooDeep(depth, outside') && out.Answered?
        && May(Backed(Greedy, Naive, depth), shape, pl, ws, flags, outside, out)
        && May(Backed(Greedy, Naive, depth), shape, out.response.pl, ws, flags, outside', again)
        ensures again == out
      {
        FallbackRepeats(shape, pl, ws, flags, depth, outside, out, outside', again);
      }
    } else {
      if Total(ws) <= |Threads(shape)| { FittingIsForced(|Threads(shape)|, ws); }
      var outside, out, again := TwoAnswers(shape, pl, ws, flags, depth);
    }
  }

  lemma {:induction false} TwoAnswers(shape: Shape, pl: Placement, ws: seq<Workload>, flags: Flags, depth: nat)
    returns (outside: Outside, out: Attempt, again: Attempt)
    requires WellFormed(shape) && Covers(shape, pl) && DistinctIds(ws)
    requires Total(ws) > |Threads(shape)| && !Forced(|Threads(shape)|, ws)
    ensures !TooDeep(depth, outside) && out.Answered? && again != out
    ensures May(Backed(Greedy, Naive, depth), shape, pl, ws, flags, outside, out)
    ensures May(Backed(Greedy, Naive, depth), shape, out.response.pl, ws, flags, outside, again)
  {
    hide WellFormed, DistinctIds, Forced, GreedyIsolate, NaiveMay, AllocationsOf, NewcomersForced, HeldBy, EmptySet;
    var left := GreedyIsolate(shape, pl, ws).pl;
    ForcedAfterOverflow(shape, pl, ws);
    GreedyExact(shape, pl, ws);
    var pl1, pl2 := UnforcedMeansTwo(left, ws);
    NaiveStep(left, ws, pl1);
    ClearedAlike(shape, pl, pl1, ws);
    outside := Outside(Failed(left), Failed(left), None);
    out, again := Answered(Respond(shape, pl1, ws, flags)), Answered(Respond(shape, pl2, ws, flags));
    assert FallbackTook(Greedy, Naive, false, shape, pl, ws, flags, outside, Failed(left), out);
    assert FallbackTook(Greedy, Naive, false, shape, pl1, ws, flags, outside, Failed(left), again);
  }

  // ---- when the queue depth changes between the calls ----

  /** Everybody requested with a positive count holds something, and nobody else is on the CPU. */
  ghost predicate Settled(pl: Placement, ws: seq<Workload>) {
    OnlyRequested(pl, ws) && forall w :: w in ws && w.count > 0 ==> HeldBy(pl, w.id) != {}
  }

  lemma BasicSettles(basic: Basic, shape: Shape, pl: Placement, ws: seq<Workload>, flags: Flags, foreign: Attempt,
                     out: Attempt)
    requires WellFormed(shape) && Covers(shape, pl) && DistinctIds(ws) && !basic.Foreign?
    requires BasicMay(basic, shape, pl, ws, flags, foreign, out) && out.Answered?
    ensures Covers(shape, out.response.pl) && Settled(out.response.pl, ws)
    ensures out.response == Respond(shape, out.response.pl, ws, flags)
  {
    hide WellFormed, DistinctIds, GreedyIsolate, NaiveMay, AllocationsOf, HeldBy, Total, ClaimedSet, Ids;
    var pl' := out.response.pl;
    CoversCard(shape, pl);
    AtLeastOneThread(shape);
    match basic
    case Greedy =>
      GreedyExact(shape, pl, ws);
      forall w | w in ws && w.count > 0 ensures HeldBy(pl', w.id) != {} {
        var i :| 0 <= i < |ws| && ws[i] == w;
        EmptyIffZero(HeldBy(pl', w.id));
      }
    case Naive =>
      NaiveStep(pl, ws, pl');
      forall w | w in ws && w.count > 0 ensures HeldBy(pl', w.id) != {} {
        EmptyIffZero(HeldBy(pl', w.id));
      }
  }

  /** The naive allocator moves nobody on a settled CPU. */
  lemma NaiveKeepsSettled(pl: Placement, ws: seq<Workload>, pl': Placement)
    requires DistinctIds(ws) && Settled(pl, ws) && NaiveMay(pl, ws, pl')
    ensures pl' == pl
  {
    hide NaiveMay, DistinctIds, HeldBy;
    NaiveStep(pl, ws, pl');
    forall v ensures HeldBy(pl', v) == HeldBy(pl, v) {
      if v in Ids(ws) {
        var i :| 0 <= i < |ws| && ws[i].id == v;
        assert ws[i] in ws;
        EmptyIffZero(HeldBy(pl', v));
      }
    }
    SameHolders(pl', pl);
  }

  /** Naive first, then greedy because the queue has grown: the answer stays exactly when it was greedy's already. */
  lemma {:induction false} NaiveThenGreedyIff(shape: Shape, pl: Placement, ws: seq<Workload>, flags: Flags,
                                              depth: nat, outside: Outside, out: Attempt, outside': Outside,
                                              again: Attempt)
    requires WellFormed(shape) && Covers(shape, pl) && DistinctIds(ws) && out.Answered?
    requires !TooDeep(depth, outside) && May(Backed(Naive, Greedy, depth), shape, pl, ws, flags, outside, out)
    requires TooDeep(depth, outside')
    requires May(Backed(Naive, Greedy, depth), shape, out.response.pl, ws, flags, outside', again)
    ensures again == out <==>
            Total(ws) <= |Threads(shape)| && out.response.pl == GreedyIsolate(shape, pl, ws).pl
  {
    hide WellFormed, DistinctIds, GreedyIsolate, NaiveMay, AllocationsOf, HeldBy, Total, ClaimedSet, EmptySet;
    BasicServes(Naive, shape, pl, ws, flags, outside.first, out);
    ClearedAlike(shape, pl, out.response.pl, ws);
    GreedyExact(shape, pl, ws);
  }

  /** An answer that greedy backed by naive may give while the queue is not too deep. */
  ghost predicate Unskipped(shape: Shape, pl: Placement, ws: seq<Workload>, flags: Flags, depth: nat, out: Attempt) {
    exists outside ::
      !TooDeep(depth, outside) && May(Backed(Greedy, Naive, depth), shape, pl, ws, flags, outside, out)
  }

  /** What was on the CPU before makes no difference to it. */
  lemma UnskippedAlike(shape: Shape, pl: Placement, pl': Placement, ws: seq<Workload>, flags: Flags, depth: nat,
                       outside: Outside, out: Attempt)
    requires pl.Keys == pl'.Keys && !TooDeep(depth, outside)
    requires May(Backed(Greedy, Naive, depth), shape, pl, ws, flags, outside, out)
    ensures May(Backed(Greedy, Naive, depth), shape, pl', ws, flags, outside, out)
    ensures Unskipped(shape, pl', ws, flags, depth, out)
  {
    hide GreedyIsolate, NaiveMay, AllocationsOf;
    ClearedAlike(shape, pl, pl', ws);
    var tried :| FallbackTook(Greedy, Naive, false, shape, pl, ws, flags, outside, tried, out);
    assert FallbackTook(Greedy, Naive, false, shape, pl', ws, flags, outside, tried, out);
  }

  /** There is always such an answer. */
  lemma SomeUnskipped(shape: Shape, pl: Placement, ws: seq<Workload>, flags: Flags, depth: nat)
    returns (outside: Outside, out: Attempt)
    requires WellFormed(shape) && Covers(shape, pl) && DistinctIds(ws)
    ensures !TooDeep(depth, outside) && May(Backed(Greedy, Naive, depth), shape, pl, ws, flags, outside, out)
  {
    hide WellFormed, DistinctIds, GreedyIsolate, NaiveMay, AllocationsOf;
    var first := GreedyIsolate(shape, pl, ws);
    outside := Outside(Failed(pl), Failed(pl), None);
    if first.Placed? {
      out := Answered(Respond(shape, first.pl, ws, flags));
      assert FallbackTook(Greedy, Naive, false, shape, pl, ws, flags, outside, out, out);
    } else {
      var pl' := SomeAfterOverflow(shape, pl, ws);
      out := Answered(Respond(shape, pl', ws, flags));
      assert FallbackTook(Greedy, Naive, false, shape, pl, ws, flags, outside, Failed(first.pl), out);
    }
  }

  lemma {:induction false} SomeAfterOverflow(shape: Shape, pl: Placement, ws: seq<Workload>) returns (pl': Placement)
    requires WellFormed(shape) && Covers(shape, pl) && DistinctIds(ws) && GreedyIsolate(shape, pl, ws).Raised?
    ensures NaiveMay(GreedyIsolate(shape, pl, ws).pl, ws, pl')
  {
    hide WellFormed, DistinctIds, GreedyIsolate, NaiveMay, HeldBy, EmptySet, NewcomersForced, Total, PlaceChoices,
         FreeChoice, ChoicesFit, ClaimedSet;
    GreedyExact(shape, pl, ws);
    ForcedAfterOverflow(shape, pl, ws);
    var left := GreedyIsolate(shape, pl, ws).pl;
    var choices := SomeChoices(left, ws);
    NaiveMayFull(left, ws, choices);
    pl' := PlaceChoices(left, ws, choices);
  }

  /** Where the counts do not force it, two different answers to one and the same CPU. */
  lemma {:induction false} TwoFromHere(shape: Shape, pl: Placement, ws: seq<Workload>, flags: Flags, depth: nat)
    returns (outside: Outside, one: Attempt, two: Attempt)
    requires WellFormed(shape) && Covers(shape, pl) && DistinctIds(ws) && !Forced(|Threads(shape)|, ws)
    ensures !TooDeep(depth, outside) && one != two
    ensures May(Backed(Greedy, Naive, depth), shape, pl, ws, flags, outside, one)
    ensures May(Backed(Greedy, Naive, depth), shape, pl, ws, flags, outside, two)
  {
    hide WellFormed, DistinctIds, Forced, May, Total, Lists;
    if Total(ws) <= |Threads(shape)| { FittingIsForced(|Threads(shape)|, ws); }
    outside, one, two := TwoAnswers(shape, pl, ws, flags, depth);
    SkippedKeys(shape, pl, ws, flags, depth, outside, one);
    UnskippedAlike(shape, one.response.pl, pl, ws, flags, depth, outside, two);
  }

  /** Whatever a call finds outside, as long as the queue is not too deep, the answer `out` is given again. */
  ghost predicate AlwaysAgain(shape: Shape, ws: seq<Workload>, flags: Flags, depth: nat, out: Attempt)
    requires out.Answered?
  {
    forall outside', again ::
      && !TooDeep(depth, outside')
      && May(Backed(Greedy, Naive, depth), shape, out.response.pl, ws, flags, outside', again)
      ==> again == out
  }

  /**
    Greedy backed by naive, skipped at the first call because of a deep queue and not at the second: the naive answer
    stays exactly when greedy backed by naive might have given it itself and would repeat it.
   */
  lemma {:induction false} SkippedThenNotIff(shape: Shape, pl: Placement, ws: seq<Workload>, flags: Flags, depth: nat,
                                             outside: Outside, out: Attempt)
    requires WellFormed(shape) && Covers(shape, pl) && DistinctIds(ws) && out.Answered?
    requires TooDeep(depth, outside) && May(Backed(Greedy, Naive, depth), shape, pl, ws, flags, outside, out)
    ensures AlwaysAgain(shape, ws, flags, depth, out) <==>
            Forced(|Threads(shape)|, ws) && Unskipped(shape, pl, ws, flags, depth, out)
  {
    hide WellFormed, DistinctIds, Forced, May, Covers, Total;
    SkippedKeys(shape, pl, ws, flags, depth, outside, out);
    var pl' := out.response.pl;
    if AlwaysAgain(shape, ws, flags, depth, out) {
      var outside', again := SomeUnskipped(shape, pl', ws, flags, depth);
      UnskippedAlike(shape, pl', pl, ws, flags, depth, outside', again);
      if !Forced(|Threads(shape)|, ws) {
        var outside'', one, two := TwoFromHere(shape, pl', ws, flags, depth);
      }
    }
    if Forced(|Threads(shape)|, ws) && Unskipped(shape, pl, ws, flags, depth, out) {
      var outside'' :|
        !TooDeep(depth, outside'') && May(Backed(Greedy, Naive, depth), shape, pl, ws, flags, outside'', out);
      forall outside', again |
        && !TooDeep(depth, outside')
        && May(Backed(Greedy, Naive, depth), shape, pl', ws, flags, outside', again)
        ensures again == out
      {
        FallbackRepeats(shape, pl, ws, flags, depth, outside'', out, outside', again);
      }
    }
  }

  lemma SkippedKeys(shape: Shape, pl: Placement, ws: seq<Workload>, flags: Flags, depth: nat, outside: Outside,
                    out: Attempt)
    requires WellFormed(shape) && Covers(shape, pl) && DistinctIds(ws) && out.Answered?
    requires May(Backed(Greedy, Naive, depth), shape, pl, ws, flags, outside, out)
    ensures Covers(shape, out.response.pl) && out.response.pl.Keys == pl.Keys
  {
    hide WellFormed, DistinctIds, May, Lists;
    AllocatorsServe(Backed(Greedy, Naive, depth), shape, pl, ws, flags, outside, out);
  }

  /** And it may move: a single workload on an idle CPU, put on one thread by naive and on another by greedy. */
  lemma {:induction false} DepthMoves(shape: Shape, pl: Placement, w: Workload, flags: Flags, depth: nat)
    returns (outside: Outside, out: Attempt, outside': Outside, again: Attempt)
    requires WellFormed(shape) && Covers(shape, pl) && AllEmpty(pl) && |Threads(shape)| >= 2 && w.count == 1
    ensures TooDeep(depth, outside) && !TooDeep(depth, outside') && out.Answered? && again.Answered?
    ensures May(Backed(Greedy, Naive, depth), shape, pl, [w], flags, outside, out)
    ensures May(Backed(Greedy, Naive, depth), shape, out.response.pl, [w], flags, outside', again)
    ensures again.response.pl != out.response.pl
  {
    hide WellFormed, GreedyIsolate, NaiveMay, AllocationsOf, Claim;
    assert Total([w]) == 1 by { assert [w][..0] == []; }
    GreedyExact(shape, pl, [w]);
    var first := GreedyIsolate(shape, pl, [w]);
    assert [w][0] == w && |HeldBy(first.pl, w.id)| == 1;
    var u := AnotherThread(shape, pl, HeldBy(first.pl, w.id));
    OneFits(shape, pl, u);
    MayOne(pl, w, {u});
    ClaimFacts(pl, {u}, w.id);
    var naive := Claim(pl, {u}, w.id);
    ClearedAlike(shape, pl, naive, [w]);
    outside := Outside(Failed(pl), Failed(pl), Some(depth));
    outside' := Outside(Failed(pl), Failed(pl), None);
    out := Answered(Respond(shape, naive, [w], flags));
    again := Answered(Respond(shape, first.pl, [w], flags));
    assert FallbackTook(Greedy, Naive, true, shape, pl, [w], flags, outside, again, out);
    assert FallbackTook(Greedy, Naive, false, shape, naive, [w], flags, outside', again, again);
    assert u in HeldBy(naive, w.id) && u !in HeldBy(first.pl, w.id);
  }

  lemma AnotherThread(shape: Shape, pl: Placement, held: set<nat>) returns (u: nat)
    requires WellFormed(shape) && Covers(shape, pl) && |Threads(shape)| >= 2 && |held| == 1
    ensures u in pl && u !in held
  {
    CoversCard(shape, pl);
    assert |pl| == |pl.Keys|;
    if pl.Keys <= held { SubsetCard(pl.Keys, held); }
    u :| u in pl && u !in held;
  }

  lemma OneFits(shape: Shape, pl: Placement, u: nat)
    requires WellFormed(shape) && Covers(shape, pl) && AllEmpty(pl) && |Threads(shape)| >= 2 && u in pl
    ensures Fits(pl, 1, {u})
  {
    CoversCard(shape, pl);
    assert EmptySet(pl) == pl.Keys && |pl| == |pl.Keys|;
  }

  // ---- the manager ----

  /**
    When a second call repeats the first: both are decided by allocators of the repository, and the second is decided
    either by naive, or by greedy where greedy, or greedy backed by naive as above, decided the first. The two cases
    of a changed queue depth left out here have the exact conditions above.
   */
  ghost predicate Steady(allocator: Allocator, n: nat, ws: seq<Workload>, outside: Outside, outside': Outside) {
    match allocator
    case Single(basic) => !basic.Foreign?
    case Backed(primary, secondary, depth) =>
      var deep, deep' := TooDeep(depth, outside), TooDeep(depth, outside');
      && (if deep then !secondary.Foreign?
          else primary.Naive? || (primary.Greedy? && (Total(ws) <= n || !secondary.Foreign?)))
      && match if deep' then secondary else primary
         case Naive => true
         case Greedy =>
           if deep then secondary.Greedy?
           else primary.Greedy? && (Total(ws) <= n || (secondary.Naive? && Forced(n, ws)))
         case Foreign => false
  }

  /** The first of two steady calls leaves everybody settled. */
  lemma {:induction false} FirstSettles(primary: Basic, secondary: Basic, depth: nat, shape: Shape, pl: Placement,
                                        ws: seq<Workload>, flags: Flags, outside: Outside, outside': Outside,
                                        out: Attempt)
    requires WellFormed(shape) && Covers(shape, pl) && DistinctIds(ws) && out.Answered?
    requires Steady(Backed(primary, secondary, depth), |Threads(shape)|, ws, outside, outside')
    requires May(Backed(primary, secondary, depth), shape, pl, ws, flags, outside, out)
    ensures Covers(shape, out.response.pl) && Settled(out.response.pl, ws)
    ensures out.response == Respond(shape, out.response.pl, ws, flags)
  {
    hide WellFormed, DistinctIds, Forced, Covers, Threads, Settled, Respond, GreedyIsolate, NaiveMay;
    var skipped := TooDeep(depth, outside);
    var tried :| FallbackTook(primary, secondary, skipped, shape, pl, ws, flags, outside, tried, out);
    if skipped {
      BasicSettles(secondary, shape, pl, ws, flags, outside.second, out);
    } else if tried.Answered? {
      BasicSettles(primary, shape, pl, ws, flags, outside.first, out);
    } else {
      FailedMeansOverflow(primary, shape, pl, ws, flags, outside.first, tried);
      BasicSettles(secondary, shape, tried.left, ws, flags, outside.second, out);
    }
  }

  lemma FailedMeansOverflow(basic: Basic, shape: Shape, pl: Placement, ws: seq<Workload>, flags: Flags,
                            foreign: Attempt, out: Attempt)
    requires WellFormed(shape) && Covers(shape, pl) && DistinctIds(ws) && !basic.Foreign? && out.Failed?
    requires BasicMay(basic, shape, pl, ws, flags, foreign, out)
    ensures basic.Greedy? && Total(ws) > |Threads(shape)| && Covers(shape, out.left)
  {
    hide WellFormed, DistinctIds, GreedyIsolate, NaiveMay, HeldBy, Total, ClaimedSet;
    GreedyExact(shape, pl, ws);
    GreedyLeavesCovered(shape, pl, ws);
  }

  lemma {:induction false} AllocatorRepeats(allocator: Allocator, shape: Shape, pl: Placement, ws: seq<Workload>,
                                            flags: Flags, outside: Outside, out: Attempt, outside': Outside,
                                            again: Attempt)
    requires WellFormed(shape) && Covers(shape, pl) && DistinctIds(ws) && out.Answered?
    requires Steady(allocator, |Threads(shape)|, ws, outside, outside')
    requires May(allocator, shape, pl, ws, flags, outside, out)
    requires May(allocator, shape, out.response.pl, ws, flags, outside', again)
    ensures again == out
  {
    hide WellFormed, DistinctIds, Forced, BasicMay, Covers, Threads, Settled, Respond;
    match allocator
    case Single(basic) => BasicRepeats(basic, shape, pl, ws, flags, outside.first, out, outside'.first, again);
    case Backed(primary, secondary, depth) =>
      FirstSettles(primary, secondary, depth, shape, pl, ws, flags, outside, outside', out);
      var deep, deep' := TooDeep(depth, outside), TooDeep(depth, outside');
      var last := if deep' then secondary else primary;
      if last.Naive? {
        DecidedByNaive(primary, secondary, depth, shape, out.response.pl, ws, flags, outside', again);
      } else if !deep && !deep' && Total(ws) > |Threads(shape)| {
        FallbackRepeats(shape, pl, ws, flags, depth, outside, out, outside', again);
      } else {
        DecidedByGreedy(primary, secondary, depth, shape, pl, ws, flags, outside, out);
        FailedUnlessFits(shape, pl, ws, flags, outside.first, out);
        DecidedByGreedy(primary, secondary, depth, shape, out.response.pl, ws, flags, outside', again);
        BasicRepeats(Greedy, shape, pl, ws, flags, outside.first, out, outside'.first, again);
      }
  }

  lemma FailedUnlessFits(shape: Shape, pl: Placement, ws: seq<Workload>, flags: Flags, foreign: Attempt, out: Attempt)
    requires WellFormed(shape) && Covers(shape, pl) && DistinctIds(ws) && out.Answered?
    requires BasicMay(Greedy, shape, pl, ws, flags, foreign, out)
    ensures Total(ws) <= |Threads(shape)|
  {
    hide WellFormed, DistinctIds, GreedyIsolate, AllocationsOf, HeldBy, Total, ClaimedSet;
    GreedyExact(shape, pl, ws);
  }

  /** On a settled CPU, a call that naive decides gives what is there. */
  lemma DecidedByNaive(primary: Basic, secondary: Basic, depth: nat, shape: Shape, pl: Placement, ws: seq<Workload>,
                       flags: Flags, outside: Outside, again: Attempt)
    requires DistinctIds(ws) && Settled(pl, ws)
    requires if TooDeep(depth, outside) then secondary.Naive? else primary.Naive?
    requires May(Backed(primary, secondary, depth), shape, pl, ws, flags, outside, again)
    ensures again == Answered(Respond(shape, pl, ws, flags))
  {
    hide DistinctIds, Settled, NaiveMay, AllocationsOf;
    NaiveKeepsSettled(pl, ws, again.response.pl);
  }

  /** A call that greedy decides is greedy's own, unless it overflows and falls back. */
  lemma DecidedByGreedy(primary: Basic, secondary: Basic, depth: nat, shape: Shape, pl: Placement, ws: seq<Workload>,
                        flags: Flags, outside: Outside, out: Attempt)
    requires WellFormed(shape) && Covers(shape, pl) && DistinctIds(ws)
    requires if TooDeep(depth, outside) then secondary.Greedy?
             else primary.Greedy? && Total(ws) <= |Threads(shape)|
    requires May(Backed(primary, secondary, depth), shape, pl, ws, flags, outside, out)
    ensures BasicMay(Greedy, shape, pl, ws, flags, outside.first, out)
  {
    hide WellFormed, DistinctIds, GreedyIsolate, AllocationsOf, HeldBy, Total;
    GreedyExact(shape, pl, ws);
  }

  /** The same response again issues no write. */
  lemma SameResponse(cg: Cgroups, allocs: seq<Allocation>, reachable: set<(Id, File)>)
    requires DistinctAllocations(allocs)
    ensures Apply(cg, allocs, allocs, reachable) == cg
  {
    forall a | a in allocs ensures Unchanged(allocs, a) {
      LastForItself(allocs, a);
    }
    NothingToApply(cg, allocs, allocs, reachable);
  }

  /**
    Exactly when a rebalance right after a successful call leaves the whole state as it is, no write, no claim moved,
    whatever the allocator: if it raises, or gives the same response again.
   */
  lemma RebalanceIsFixpointIff(s: Sys, adds: seq<Workload>, removes: seq<Id>, out: Attempt, reachable: set<(Id, File)>,
                               again: Attempt, reachable': set<(Id, File)>)
    requires DistinctIds(s.ws) && out.Answered? && DistinctAllocations(out.response.allocs)
    ensures var s' := IsolateStep(s, adds, removes, out, reachable);
            IsolateStep(s', [], [], again, reachable') == s' <==> again.Failed? || again == out
  {
    hide Apply, DistinctIds, PopAll, PutAll;
    var s' := IsolateStep(s, adds, removes, out, reachable);
    assert Requested(s'.ws, [], []) == s'.ws by { NothingAsked(s'.ws); }
    assert ToSet<Id>([]) == {};
    assert Release(s'.cg, {}) == s'.cg;
    SameResponse(s'.cg, s'.last, reachable');
  }

  lemma NothingAsked(ws: seq<Workload>)
    ensures Requested(ws, [], []) == ws
  {
  }

  /** A rebalance right after a successful call, if the two are steady. */
  lemma {:induction false} RebalanceIsFixpoint(allocator: Allocator, shape: Shape, flags: Flags, s: Sys,
                                               adds: seq<Workload>, removes: seq<Id>, outside: Outside, out: Attempt,
                                               reachable: set<(Id, File)>, outside': Outside, again: Attempt,
                                               reachable': set<(Id, File)>)
    requires WellFormed(shape) && Covers(shape, s.pl) && DistinctIds(s.ws) && out.Answered?
    requires Steady(allocator, |Threads(shape)|, Requested(s.ws, adds, removes), outside, outside')
    requires May(allocator, shape, s.pl, Requested(s.ws, adds, removes), flags, outside, out)
    requires var s' := IsolateStep(s, adds, removes, out, reachable);
             May(allocator, shape, s'.pl, Requested(s'.ws, [], []), flags, outside', again)
    ensures var s' := IsolateStep(s, adds, removes, out, reachable);
            IsolateStep(s', [], [], again, reachable') == s'
  {
    hide May, Apply, WellFormed, DistinctIds, Steady, AllocationsOf;
    var s' := IsolateStep(s, adds, removes, out, reachable);
    RequestedFacts(s.ws, adds, removes);
    NothingAsked(s'.ws);
    SteadyResponds(allocator, shape, flags, s.pl, s'.ws, outside, outside', out);
    AllocatorRepeats(allocator, shape, s.pl, s'.ws, flags, outside, out, outside', again);
    AllocationIds(shape, out.response.pl, s'.ws, flags);
    RebalanceIsFixpointIff(s, adds, removes, out, reachable, again, reachable');
  }

  lemma {:induction false} SteadyResponds(allocator: Allocator, shape: Shape, flags: Flags, pl: Placement,
                                          ws: seq<Workload>, outside: Outside, outside': Outside, out: Attempt)
    requires WellFormed(shape) && Covers(shape, pl) && DistinctIds(ws) && out.Answered?
    requires Steady(allocator, |Threads(shape)|, ws, outside, outside')
    requires May(allocator, shape, pl, ws, flags, outside, out)
    ensures out.response == Respond(shape, out.response.pl, ws, flags)
  {
    hide WellFormed, DistinctIds, Covers, Threads, Settled, Respond;
    match allocator
    case Single(basic) => BasicSettles(basic, shape, pl, ws, flags, outside.first, out);
    case Backed(primary, secondary, depth) =>
      FirstSettles(primary, secondary, depth, shape, pl, ws, flags, outside, outside', out);
  }
}
