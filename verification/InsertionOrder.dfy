/**
  The insertion order of the workload map after a batch and after its events in turn. A workload that was there and
  never died keeps its place in both. Any other is placed, after these, by its first start in the batch, and in turn
  by its first start after its last die.
 */
module InsertionOrder {
  import opened Collections
  import opened Topology
  import opened GreedyPlacement
  import opened WorkloadMap
  import opened EventQueue
  import opened BatchHandling

  predicate StartsId(pods: Pods, e: Event, id: Id) {
    e.action.START? && Resolve(pods, e).Some? && Resolve(pods, e).value.id == id
  }

  /** The position of the first start of an id. */
  function FirstStart(pods: Pods, es: seq<Event>, id: Id): Option<nat> {
    if es == [] then None else
      var n := |es| - 1;
      var before := FirstStart(pods, es[..n], id);
      if before.None? && StartsId(pods, es[n], id) then Some(n) else before
  }

  /** The position of the first start after the last die. */
  function Birth(pods: Pods, es: seq<Event>, id: Id): Option<nat> {
    if es == [] then None else
      var n := |es| - 1;
      var before := Birth(pods, es[..n], id);
      if es[n].action.DIE? && es[n].name == id then None
      else if before.None? && StartsId(pods, es[n], id) then Some(n) else before
  }

  lemma {:induction false} PositionsBelow(pods: Pods, es: seq<Event>, id: Id)
    ensures FirstStart(pods, es, id).Some? ==> FirstStart(pods, es, id).value < |es|
    ensures Birth(pods, es, id).Some? ==> Birth(pods, es, id).value < |es|
    decreases |es|
  {
    if es != [] { PositionsBelow(pods, es[..|es| - 1], id); }
  }

  /** In the map and never died. */
  predicate Old(m: seq<Workload>, es: seq<Event>, id: Id) { id in Ids(m) && id !in RemovesOf(Dies(es)) }

  function PlaceIn(m: seq<Workload>, id: Id): nat {
    if m == [] || m[0].id == id then 0 else 1 + PlaceIn(m[1..], id)
  }

  lemma OldStep(m: seq<Workload>, es: seq<Event>, id: Id)
    requires es != []
    ensures var e := es[|es| - 1];
            Old(m, es, id) <==> Old(m, es[..|es| - 1], id) && !(e.action.DIE? && e.name == id)
  {
    hide Ids, Dies;
    RemovesStep(es);
  }

  lemma PositionSteps(pods: Pods, es: seq<Event>, id: Id)
    requires es != []
    ensures var e, starts, born := es[|es| - 1], FirstStart(pods, es[..|es| - 1], id), Birth(pods, es[..|es| - 1], id);
            && (FirstStart(pods, es, id).Some? <==> starts.Some? || StartsId(pods, e, id))
            && (Birth(pods, es, id).Some? <==>
                  !(e.action.DIE? && e.name == id) && (born.Some? || StartsId(pods, e, id)))
  {
    hide StartsId;
  }

  lemma {:induction false} PlaceOf(m: seq<Workload>, k: nat)
    requires DistinctIds(m) && k < |m|
    ensures PlaceIn(m, m[k].id) == k
  {
    if k > 0 {
      assert m[1..][k - 1] == m[k] && m[0].id != m[k].id;
      PlaceOf(m[1..], k - 1);
    }
  }

  lemma {:induction false} PlaceBelow(m: seq<Workload>, id: Id)
    requires id in Ids(m)
    ensures PlaceIn(m, id) < |m|
  {
    var k :| 0 <= k < |m| && m[k].id == id;
    if m[0].id != id {
      assert m[1..][k - 1].id == id;
      PlaceBelow(m[1..], id);
    }
  }

  /** Old workloads come first, in their order, the others by the position given. */
  function Rank(m: seq<Workload>, es: seq<Event>, id: Id, position: Option<nat>): int {
    if Old(m, es, id) then PlaceIn(m, id) - |m| else if position.Some? then position.value else |es|
  }

  function TurnRank(pods: Pods, m: seq<Workload>, es: seq<Event>, id: Id): int {
    Rank(m, es, id, Birth(pods, es, id))
  }

  function BatchRank(pods: Pods, m: seq<Workload>, es: seq<Event>, id: Id): int {
    Rank(m, es, id, FirstStart(pods, es, id))
  }

  ghost predicate SortedBy(s: seq<Workload>, rank: Id -> int) {
    forall i, j :: 0 <= i < j < |s| ==> rank(s[i].id) < rank(s[j].id)
  }

  lemma SortedAlike(s: seq<Workload>, rank: Id -> int, rank': Id -> int)
    requires SortedBy(s, rank) && forall w :: w in s ==> rank(w.id) == rank'(w.id)
    ensures SortedBy(s, rank')
  {
    forall i, j | 0 <= i < j < |s| ensures rank'(s[i].id) < rank'(s[j].id) {
      assert s[i] in s && s[j] in s;
    }
  }

  lemma PopSorted(s: seq<Workload>, id: Id, rank: Id -> int)
    requires DistinctIds(s) && SortedBy(s, rank)
    ensures SortedBy(Pop(s, id), rank)
  {
    hide DistinctIds, SortedBy, Pop;
    PopFacts(s, id);
    if id in Ids(s) {
      var k :| 0 <= k < |s| && s[k].id == id;
      PopAt(s, id, k);
      DropSorted(s, k, rank);
    }
  }

  lemma DropSorted(s: seq<Workload>, k: nat, rank: Id -> int)
    requires k < |s| && SortedBy(s, rank)
    ensures SortedBy(s[..k] + s[k + 1..], rank)
  {
    var r := s[..k] + s[k + 1..];
    forall j | 0 <= j < |r| ensures r[j] == s[if j < k then j else j + 1] {
    }
  }

  lemma PutSorted(s: seq<Workload>, w: Workload, rank: Id -> int)
    requires DistinctIds(s) && SortedBy(s, rank)
    requires w.id !in Ids(s) ==> forall v :: v in s ==> rank(v.id) < rank(w.id)
    ensures SortedBy(Put(s, w), rank)
  {
    PutFacts(s, w);
    var r := Put(s, w);
    if w.id !in Ids(s) {
      forall i, j | 0 <= i < j < |r| ensures rank(r[i].id) < rank(r[j].id) {
        assert r[i] == s[i] && s[i] in s;
      }
    }
  }

  // ---- in turn ----

  /** Who is in the map, after the events in turn. */
  lemma {:induction false} TurnIds(pods: Pods, m: seq<Workload>, es: seq<Event>, id: Id)
    requires DistinctIds(m)
    ensures id in Ids(InTurn(pods, m, es)) <==> Old(m, es, id) || Birth(pods, es, id).Some?
    decreases |es|
  {
    if es != [] {
      var n := |es| - 1;
      hide Put, Pop, Resolve, DistinctIds, Single, Ids, Old, Birth, FirstStart;
      var before, e := InTurn(pods, m, es[..n]), es[n];
      TurnIds(pods, m, es[..n], id);
      InTurnDistinct(pods, m, es[..n]);
      SingleMeans(pods, before, e);
      OldStep(m, es, id);
      PositionSteps(pods, es, id);
      if e.action.START? && Resolve(pods, e).Some? { PutFacts(before, Resolve(pods, e).value); }
      PopFacts(before, e.name);
    } else {
      assert RemovesOf(Dies(es)) == [];
    }
  }

  lemma {:induction false} TurnSorted(pods: Pods, m: seq<Workload>, es: seq<Event>)
    requires DistinctIds(m)
    ensures SortedBy(InTurn(pods, m, es), id => TurnRank(pods, m, es, id))
    decreases |es|
  {
    hide Resolve, DistinctIds, SortedBy, Single, TurnRank;
    if es == [] {
      StartSorted(pods, m);
    } else {
      var n := |es| - 1;
      var before, e := InTurn(pods, m, es[..n]), es[n];
      TurnSorted(pods, m, es[..n]);
      InTurnDistinct(pods, m, es[..n]);
      SingleMeans(pods, before, e);
      if e.action.START? && Resolve(pods, e).Some? {
        TurnPut(pods, m, es, before, Resolve(pods, e).value);
      } else if e.action.DIE? {
        TurnPop(pods, m, es, before);
      } else {
        forall w | w in before ensures TurnRank(pods, m, es, w.id) == TurnRank(pods, m, es[..n], w.id) {
          MemberId(before, w);
          TurnIds(pods, m, es[..n], w.id);
          RankStays(pods, m, es, w.id);
        }
        SortedAlike(before, id => TurnRank(pods, m, es[..n], id), id => TurnRank(pods, m, es, id));
      }
    }
  }

  lemma MemberId(s: seq<Workload>, w: Workload)
    requires w in s
    ensures w.id in Ids(s)
  {
  }

  lemma StartSorted(pods: Pods, m: seq<Workload>)
    requires DistinctIds(m)
    ensures SortedBy(m, id => TurnRank(pods, m, [], id))
  {
    forall i | 0 <= i < |m| ensures TurnRank(pods, m, [], m[i].id) == i - |m| {
      PlaceOf(m, i);
      assert m[i].id in Ids(m);
    }
  }

  /** An event about somebody else, or a start of somebody born, leaves the rank. */
  lemma RankStays(pods: Pods, m: seq<Workload>, es: seq<Event>, id: Id)
    requires es != []
    requires var n := |es| - 1;
             && !(es[n].action.DIE? && es[n].name == id)
             && (Old(m, es[..n], id) || Birth(pods, es[..n], id).Some?)
    ensures TurnRank(pods, m, es, id) == TurnRank(pods, m, es[..|es| - 1], id)
  {
    hide PlaceIn, Resolve;
    RemovesStep(es);
  }

  lemma TurnPut(pods: Pods, m: seq<Workload>, es: seq<Event>, before: seq<Workload>, w: Workload)
    requires DistinctIds(m) && es != [] && DistinctIds(before) && before == InTurn(pods, m, es[..|es| - 1])
    requires es[|es| - 1].action.START? && Resolve(pods, es[|es| - 1]) == Some(w)
    requires SortedBy(before, id => TurnRank(pods, m, es[..|es| - 1], id))
    ensures SortedBy(Put(before, w), id => TurnRank(pods, m, es, id))
  {
    hide Resolve, DistinctIds, SortedBy, InTurn, Put, TurnRank;
    var n := |es| - 1;
    forall v | v in before
      ensures TurnRank(pods, m, es, v.id) == TurnRank(pods, m, es[..n], v.id) && TurnRank(pods, m, es, v.id) < n
    {
      MemberId(before, v);
      TurnIds(pods, m, es[..n], v.id);
      RankStays(pods, m, es, v.id);
      RankBelow(pods, m, es[..n], v.id);
    }
    SortedAlike(before, id => TurnRank(pods, m, es[..n], id), id => TurnRank(pods, m, es, id));
    if w.id !in Ids(before) {
      TurnIds(pods, m, es[..n], w.id);
      NewRank(pods, m, es, w);
    }
    PutSorted(before, w, id => TurnRank(pods, m, es, id));
  }

  lemma RankBelow(pods: Pods, m: seq<Workload>, es: seq<Event>, id: Id)
    requires Old(m, es, id) || Birth(pods, es, id).Some?
    ensures TurnRank(pods, m, es, id) < |es|
  {
    PositionsBelow(pods, es, id);
    if Old(m, es, id) { PlaceBelow(m, id); }
  }

  lemma NewRank(pods: Pods, m: seq<Workload>, es: seq<Event>, w: Workload)
    requires es != [] && es[|es| - 1].action.START? && Resolve(pods, es[|es| - 1]) == Some(w)
    requires !Old(m, es[..|es| - 1], w.id) && Birth(pods, es[..|es| - 1], w.id).None?
    ensures TurnRank(pods, m, es, w.id) == |es| - 1
  {
    hide PlaceIn, Resolve;
    RemovesStep(es);
  }

  lemma TurnPop(pods: Pods, m: seq<Workload>, es: seq<Event>, before: seq<Workload>)
    requires DistinctIds(m) && es != [] && DistinctIds(before) && before == InTurn(pods, m, es[..|es| - 1])
    requires es[|es| - 1].action.DIE?
    requires SortedBy(before, id => TurnRank(pods, m, es[..|es| - 1], id))
    ensures SortedBy(Pop(before, es[|es| - 1].name), id => TurnRank(pods, m, es, id))
  {
    hide Resolve, DistinctIds, SortedBy, InTurn, Pop, TurnRank;
    var n := |es| - 1;
    var after := Pop(before, es[n].name);
    PopSorted(before, es[n].name, id => TurnRank(pods, m, es[..n], id));
    PopFacts(before, es[n].name);
    forall v | v in after ensures TurnRank(pods, m, es, v.id) == TurnRank(pods, m, es[..n], v.id) {
      MemberId(before, v);
      TurnIds(pods, m, es[..n], v.id);
      RankStays(pods, m, es, v.id);
    }
    SortedAlike(after, id => TurnRank(pods, m, es[..n], id), id => TurnRank(pods, m, es, id));
  }

  // ---- in one batch ----

  /** Ranks while the starts of a batch are put one by one, given who is kept. */
  function PutRank(pods: Pods, m: seq<Workload>, kept: seq<Workload>, es: seq<Event>, id: Id): int {
    if id in Ids(kept) then PlaceIn(m, id) - |m|
    else if FirstStart(pods, es, id).Some? then FirstStart(pods, es, id).value else |es|
  }

  lemma {:induction false} KeptSorted(m: seq<Workload>, removes: seq<Id>)
    requires DistinctIds(m)
    ensures SortedBy(PopAll(m, removes), id => PlaceIn(m, id) - |m|)
    decreases |removes|
  {
    if removes == [] {
      forall i | 0 <= i < |m| ensures PlaceIn(m, m[i].id) == i {
        PlaceOf(m, i);
      }
    } else {
      var n := |removes| - 1;
      KeptSorted(m, removes[..n]);
      PopAllFacts(m, removes[..n]);
      PopSorted(PopAll(m, removes[..n]), removes[n], id => PlaceIn(m, id) - |m|);
    }
  }

  lemma {:induction false} PutIds(pods: Pods, kept: seq<Workload>, es: seq<Event>, id: Id)
    requires DistinctIds(kept)
    ensures id in Ids(PutAll(kept, AddsOf(pods, Starts(es)))) <==> id in Ids(kept) || FirstStart(pods, es, id).Some?
    decreases |es|
  {
    hide Resolve, DistinctIds, AddsOf, Starts, PutAll, Put, Ids, Birth;
    if es == [] {
      EmptyAdds(pods);
      assert PutAll(kept, []) == kept by { PutNone(kept); }
    } else {
      var n := |es| - 1;
      hide FirstStart;
      PutIds(pods, kept, es[..n], id);
      AddsStep(pods, es);
      PositionSteps(pods, es, id);
      var adds := AddsOf(pods, Starts(es[..n]));
      PutAllFacts(kept, adds);
      if es[n].action.START? && Resolve(pods, es[n]).Some? {
        PutAllStep(kept, adds, Resolve(pods, es[n]).value);
        PutFacts(PutAll(kept, adds), Resolve(pods, es[n]).value);
      }
    }
  }

  lemma PutNone(m: seq<Workload>)
    ensures PutAll(m, []) == m
  {
  }

  lemma {:induction false} PutAllSorted(pods: Pods, m: seq<Workload>, kept: seq<Workload>, es: seq<Event>)
    requires DistinctIds(kept) && SortedBy(kept, id => PlaceIn(m, id) - |m|) && Ids(kept) <= Ids(m)
    ensures SortedBy(PutAll(kept, AddsOf(pods, Starts(es))), id => PutRank(pods, m, kept, es, id))
    decreases |es|
  {
    hide Resolve, DistinctIds, SortedBy, AddsOf, Starts, PutRank, Ids;
    if es == [] {
      EmptyAdds(pods);
      forall w | w in kept ensures PutRank(pods, m, kept, [], w.id) == PlaceIn(m, w.id) - |m| {
        KeptRank(pods, m, kept, [], w);
      }
      SortedAlike(kept, id => PlaceIn(m, id) - |m|, id => PutRank(pods, m, kept, [], id));
    } else {
      var n := |es| - 1;
      var adds := AddsOf(pods, Starts(es[..n]));
      var before := PutAll(kept, adds);
      PutAllSorted(pods, m, kept, es[..n]);
      PutAllFacts(kept, adds);
      AddsStep(pods, es);
      forall v | v in before
        ensures PutRank(pods, m, kept, es, v.id) == PutRank(pods, m, kept, es[..n], v.id)
        ensures PutRank(pods, m, kept, es, v.id) < n
      {
        MemberId(before, v);
        PutIds(pods, kept, es[..n], v.id);
        PutRankStays(pods, m, kept, es, v.id);
      }
      SortedAlike(before, id => PutRank(pods, m, kept, es[..n], id), id => PutRank(pods, m, kept, es, id));
      if es[n].action.START? && Resolve(pods, es[n]).Some? {
        var w := Resolve(pods, es[n]).value;
        PutAllStep(kept, adds, w);
        PutIds(pods, kept, es[..n], w.id);
        if w.id !in Ids(before) { NewPutRank(pods, m, kept, es, w); }
        PutSorted(before, w, id => PutRank(pods, m, kept, es, id));
      }
    }
  }

  lemma KeptRank(pods: Pods, m: seq<Workload>, kept: seq<Workload>, es: seq<Event>, w: Workload)
    requires w in kept
    ensures PutRank(pods, m, kept, es, w.id) == PlaceIn(m, w.id) - |m|
  {
  }

  lemma PutRankStays(pods: Pods, m: seq<Workload>, kept: seq<Workload>, es: seq<Event>, id: Id)
    requires es != [] && Ids(kept) <= Ids(m)
    requires id in Ids(kept) || FirstStart(pods, es[..|es| - 1], id).Some?
    ensures PutRank(pods, m, kept, es, id) == PutRank(pods, m, kept, es[..|es| - 1], id) < |es| - 1
  {
    hide Ids, PlaceIn;
    PositionsBelow(pods, es[..|es| - 1], id);
    if id in Ids(kept) { PlaceBelow(m, id); }
  }

  lemma NewPutRank(pods: Pods, m: seq<Workload>, kept: seq<Workload>, es: seq<Event>, w: Workload)
    requires es != [] && es[|es| - 1].action.START? && Resolve(pods, es[|es| - 1]) == Some(w)
    requires w.id !in Ids(kept) && FirstStart(pods, es[..|es| - 1], w.id).None?
    ensures PutRank(pods, m, kept, es, w.id) == |es| - 1
  {
  }

  lemma BatchSorted(pods: Pods, m: seq<Workload>, es: seq<Event>)
    requires DistinctIds(m)
    ensures SortedBy(Batched(pods, m, es), id => BatchRank(pods, m, es, id))
  {
    hide DistinctIds, SortedBy, AddsOf, Starts, Dies, RemovesOf, PutAll, PopAll, PlaceIn, FirstStart;
    var removes := RemovesOf(Dies(es));
    var kept := PopAll(m, removes);
    PopAllFacts(m, removes);
    KeptSorted(m, removes);
    PutAllSorted(pods, m, kept, es);
    forall id ensures PutRank(pods, m, kept, es, id) == BatchRank(pods, m, es, id) {
    }
    SortedAlike(Batched(pods, m, es), id => PutRank(pods, m, kept, es, id), id => BatchRank(pods, m, es, id));
  }

  // ---- the same order ----

  /** Both ranks order the members alike. */
  ghost predicate RanksAlike(s: seq<Workload>, rank: Id -> int, rank': Id -> int) {
    forall v, w :: v in s && w in s ==> (rank(v.id) < rank(w.id) <==> rank'(v.id) < rank'(w.id))
  }

  /** Two maps with the same entries, each sorted by a rank, are equal exactly when the ranks order the ids alike. */
  lemma SameSequenceIff(s: seq<Workload>, t: seq<Workload>, rank: Id -> int, rank': Id -> int)
    requires SortedBy(s, rank) && SortedBy(t, rank') && forall w :: w in s <==> w in t
    ensures s == t <==> RanksAlike(s, rank, rank')
  {
    if s == t {
      forall v, w | v in s && w in s ensures rank(v.id) < rank(w.id) <==> rank'(v.id) < rank'(w.id) {
        var i :| 0 <= i < |s| && s[i] == v;
        var j :| 0 <= j < |s| && s[j] == w;
      }
    }
    if RanksAlike(s, rank, rank') {
      forall i, j | 0 <= i < j < |t| ensures rank(t[i].id) < rank(t[j].id) {
        assert t[i] in s && t[j] in s;
      }
      SortedUnique(s, t, rank);
    }
  }

  lemma {:induction false} SortedUnique(s: seq<Workload>, t: seq<Workload>, rank: Id -> int)
    requires SortedBy(s, rank) && SortedBy(t, rank) && forall w :: w in s <==> w in t
    ensures s == t
    decreases |s|
  {
    if s == [] {
      EmptyIff(t);
    } else {
      assert s[0] in t;
      var m, n := |s| - 1, |t| - 1;
      TopIsLast(s, t[n], rank);
      TopIsLast(t, s[m], rank);
      assert s[m] == t[n];
      var s', t' := s[..m], t[..n];
      forall w ensures w in s' <==> w in t' {
        WithoutLast(s, w, rank);
        WithoutLast(t, w, rank);
      }
      SortedUnique(s', t', rank);
      assert s == s[..m] + [s[m]] && t == t[..n] + [t[n]];
    }
  }

  lemma EmptyIff(s: seq<Workload>)
    ensures s == [] <==> forall w :: w !in s
  {
    if s != [] { assert s[0] in s; }
  }

  lemma TopIsLast(s: seq<Workload>, w: Workload, rank: Id -> int)
    requires s != [] && SortedBy(s, rank) && w in s
    ensures w == s[|s| - 1] || rank(w.id) < rank(s[|s| - 1].id)
  {
    var i :| 0 <= i < |s| && s[i] == w;
  }

  lemma WithoutLast(s: seq<Workload>, w: Workload, rank: Id -> int)
    requires s != [] && SortedBy(s, rank)
    ensures w in s[..|s| - 1] <==> w in s && w != s[|s| - 1]
  {
    var n := |s| - 1;
    forall i | 0 <= i < n ensures s[i] != s[n] {
    }
    assert s == s[..n] + [s[n]];
  }

  /** Two workloads that are new to the map, or died, are started in the same order as they were finally born. */
  ghost predicate SameOrder(pods: Pods, m: seq<Workload>, es: seq<Event>) {
    forall v, w ::
      && FirstStart(pods, es, v).Some? && Birth(pods, es, v).Some? && !Old(m, es, v)
      && FirstStart(pods, es, w).Some? && Birth(pods, es, w).Some? && !Old(m, es, w) ==>
        (FirstStart(pods, es, v).value < FirstStart(pods, es, w).value <==>
         Birth(pods, es, v).value < Birth(pods, es, w).value)
  }

  /**
    Exactly when one call with a batch and one call per event leave the same map, insertion order included, if the
    allocator answers all the calls.
   */
  lemma SameMapIff(pods: Pods, m: seq<Workload>, es: seq<Event>)
    requires DistinctIds(m)
    ensures Batched(pods, m, es) == InTurn(pods, m, es) <==> NobodyEndsDead(pods, es) && SameOrder(pods, m, es)
  {
    hide DistinctIds, Batched, InTurn, SortedBy, BatchRank, TurnRank, SameOrder, RanksAlike,
         NobodyEndsDead;
    SameEntriesIff(pods, m, es);
    BatchSorted(pods, m, es);
    TurnSorted(pods, m, es);
    var s, t := Batched(pods, m, es), InTurn(pods, m, es);
    assert NobodyEndsDead(pods, es) <==> forall w :: w in s <==> w in t;
    if NobodyEndsDead(pods, es) {
      SameSequenceIff(s, t, id => BatchRank(pods, m, es, id), id => TurnRank(pods, m, es, id));
      RanksAgreeIff(pods, m, es);
      assert s == t <==> SameOrder(pods, m, es);
    }
  }

  /** Among the workloads of the map, the two ranks order alike exactly in this case. */
  lemma {:induction false} RanksAgreeIff(pods: Pods, m: seq<Workload>, es: seq<Event>)
    requires DistinctIds(m) && forall w :: w in Batched(pods, m, es) <==> w in InTurn(pods, m, es)
    ensures SameOrder(pods, m, es) <==>
            RanksAlike(Batched(pods, m, es), id => BatchRank(pods, m, es, id), id => TurnRank(pods, m, es, id))
  {
    hide DistinctIds, Batched, InTurn, BatchRank, TurnRank, Old, FirstStart, Birth, Ids;
    var s := Batched(pods, m, es);
    forall v | v in s
      ensures Old(m, es, v.id) || (FirstStart(pods, es, v.id).Some? && Birth(pods, es, v.id).Some?)
    {
      MemberRanked(pods, m, es, v);
    }
    forall id | Birth(pods, es, id).Some? ensures exists v :: v in s && v.id == id {
      BornIsIn(pods, m, es, id);
    }
    forall v, w | v in s && w in s
      ensures !Old(m, es, v.id) && !Old(m, es, w.id) ==>
                BatchRank(pods, m, es, v.id) == FirstStart(pods, es, v.id).value
                && TurnRank(pods, m, es, v.id) == Birth(pods, es, v.id).value
      ensures Old(m, es, v.id) || Old(m, es, w.id) ==>
                (BatchRank(pods, m, es, v.id) < BatchRank(pods, m, es, w.id) <==>
                 TurnRank(pods, m, es, v.id) < TurnRank(pods, m, es, w.id))
    {
      RankValues(pods, m, es, v.id);
      RankValues(pods, m, es, w.id);
    }
  }

  lemma MemberRanked(pods: Pods, m: seq<Workload>, es: seq<Event>, v: Workload)
    requires DistinctIds(m) && v in Batched(pods, m, es) && v in InTurn(pods, m, es)
    ensures Old(m, es, v.id) || (FirstStart(pods, es, v.id).Some? && Birth(pods, es, v.id).Some?)
  {
    hide DistinctIds, AddsOf, Starts, Dies, RemovesOf, PutAll, PopAll, FirstStart, Birth, InTurn;
    MemberId(InTurn(pods, m, es), v);
    MemberId(Batched(pods, m, es), v);
    TurnIds(pods, m, es, v.id);
    PopAllFacts(m, RemovesOf(Dies(es)));
    PutIds(pods, PopAll(m, RemovesOf(Dies(es))), es, v.id);
  }

  lemma BornIsIn(pods: Pods, m: seq<Workload>, es: seq<Event>, id: Id)
    requires DistinctIds(m) && Birth(pods, es, id).Some?
    requires forall w :: w in Batched(pods, m, es) <==> w in InTurn(pods, m, es)
    ensures exists v :: v in Batched(pods, m, es) && v.id == id
  {
    hide DistinctIds, Batched, InTurn, Birth;
    TurnIds(pods, m, es, id);
    var t := InTurn(pods, m, es);
    var k :| 0 <= k < |t| && t[k].id == id;
    assert t[k] in t;
  }

  /** Old ids rank below zero, the others do not. */
  lemma RankValues(pods: Pods, m: seq<Workload>, es: seq<Event>, id: Id)
    ensures Old(m, es, id) ==> BatchRank(pods, m, es, id) == TurnRank(pods, m, es, id) < 0
    ensures !Old(m, es, id) ==> BatchRank(pods, m, es, id) >= 0 && TurnRank(pods, m, es, id) >= 0
    ensures !Old(m, es, id) && FirstStart(pods, es, id).Some? ==>
              BatchRank(pods, m, es, id) == FirstStart(pods, es, id).value
    ensures !Old(m, es, id) && Birth(pods, es, id).Some? ==> TurnRank(pods, m, es, id) == Birth(pods, es, id).value
  {
    hide PlaceIn, FirstStart, Birth;
    if Old(m, es, id) { PlaceBelow(m, id); }
  }
}
