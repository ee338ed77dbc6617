/**
  The container batch handler: a batch of start and die events becomes one call of the workload manager. Handled
  one event at a time instead, the same events would become one call each; when the two agree is proved here.
 */
module BatchHandling {
  import opened Collections
  import opened Topology
  import opened GreedyPlacement
  import opened WorkloadMap
  import opened EventQueue

  /** What is known of the pods: the workload of a container name, if it can be constructed. */
  type Pods = map<string, Workload>

  function Resolve(pods: Pods, e: Event): Option<Workload> {
    if e.name != "" && e.name in pods then Some(pods[e.name]) else None
  }

  /** The adds: starts without a name or without a workload are ignored. */
  function AddsOf(pods: Pods, starts: seq<Event>): seq<Workload> {
    if starts == [] then [] else
      var before := AddsOf(pods, starts[..|starts| - 1]);
      match Resolve(pods, starts[|starts| - 1])
      case Some(w) => before + [w]
      case None => before
  }

  /** The removes: the container names of the dies. */
  function RemovesOf(dies: seq<Event>): seq<Id> {
    seq(|dies|, i requires 0 <= i < |dies| => dies[i].name)
  }

  /** Every start counts for itself, in order: with a name that is known its workload is added, else nothing is. */
  lemma {:induction false} AddsOneByOne(pods: Pods, before: seq<Event>, e: Event, after: seq<Event>)
    ensures AddsOf(pods, before + [e] + after) == AddsOf(pods, before)
              + (if e.name != "" && e.name in pods then [pods[e.name]] else []) + AddsOf(pods, after)
    decreases |after|
  {
    if after == [] {
      assert (before + [e] + after)[..|before|] == before;
    } else {
      var n := |after| - 1;
      assert (before + [e] + after)[..|before| + 1 + n] == before + [e] + after[..n];
      AddsOneByOne(pods, before, e, after[..n]);
    }
  }

  class ContainerBatchEventHandler {
    var ignoredCount: nat
    var handledCount: nat

    constructor ()
      ensures ignoredCount == 0 && handledCount == 0
    {
      ignoredCount, handledCount := 0, 0;
    }

    /** `handle`: what the manager is asked for, if anything; every unusable start counts as ignored. */
    method Handle(d: Delivery, pods: Pods) returns (call: Option<(seq<Workload>, seq<Id>)>)
      modifies this
      ensures d.Internal? ==> call == None && ignoredCount == old(ignoredCount) + 1 && handledCount == old(handledCount)
      ensures d.ContainerBatch? ==>
                && call == Some((AddsOf(pods, d.starts), RemovesOf(d.dies)))
                && |call.value.1| == |d.dies| && (forall i :: 0 <= i < |d.dies| ==> call.value.1[i] == d.dies[i].name)
                && handledCount == old(handledCount) + 1
                && ignoredCount == old(ignoredCount) + |d.starts| - |AddsOf(pods, d.starts)|
    {
      if d.Internal? {
        ignoredCount := ignoredCount + 1;
        return None;
      }
      var adds: seq<Workload> := [];
      for i := 0 to |d.starts|
        invariant adds == AddsOf(pods, d.starts[..i]) && handledCount == old(handledCount)
        invariant |adds| <= i && ignoredCount == old(ignoredCount) + i - |adds|
      {
        assert d.starts[..i + 1][..i] == d.starts[..i];
        match Resolve(pods, d.starts[i]) {
          case None => ignoredCount := ignoredCount + 1;
          case Some(w) => adds := adds + [w];
        }
      }
      WholePrefix(d.starts);
      var removes: seq<Id> := [];
      for i := 0 to |d.dies|
        invariant removes == RemovesOf(d.dies)[..i]
      {
        removes := removes + [d.dies[i].name];
      }
      WholePrefix(RemovesOf(d.dies));
      handledCount := handledCount + 1;
      call := Some((adds, removes));
    }
  }

  // ---- one call for all, or one call each ----

  /** The map after one call with the whole batch. */
  function Batched(pods: Pods, m: seq<Workload>, es: seq<Event>): seq<Workload> {
    Requested(m, AddsOf(pods, Starts(es)), RemovesOf(Dies(es)))
  }

  /** The map after a call with one event: a batch of one. */
  function Single(pods: Pods, m: seq<Workload>, e: Event): seq<Workload> { Batched(pods, m, [e]) }

  /** A start puts its workload, a die pops its container, and nothing else has an effect. */
  lemma SingleMeans(pods: Pods, m: seq<Workload>, e: Event)
    ensures Single(pods, m, e) ==
              if e.action.START? then (match Resolve(pods, e) case Some(w) => Put(m, w) case None => m)
              else if e.action.DIE? then Pop(m, e.name)
              else m
  {
    hide Resolve, Put, Pop;
    assert [e][..0] == [];
    AddsStep(pods, [e]);
    RemovesStep([e]);
    EmptyAdds(pods);
    assert PopAll(m, []) == m;
    PopAllStep(m, [], e.name);
    if e.action.START? && Resolve(pods, e).Some? { PutAllStep(m, [], Resolve(pods, e).value); }
  }

  /** The map after calls with the events one by one, all of which the allocator answers. */
  function InTurn(pods: Pods, m: seq<Workload>, es: seq<Event>): seq<Workload> {
    if es == [] then m else Single(pods, InTurn(pods, m, es[..|es| - 1]), es[|es| - 1])
  }

  lemma {:induction false} InTurnDistinct(pods: Pods, m: seq<Workload>, es: seq<Event>)
    requires DistinctIds(m)
    ensures DistinctIds(InTurn(pods, m, es))
    decreases |es|
  {
    if es != [] {
      var before, e := InTurn(pods, m, es[..|es| - 1]), es[|es| - 1];
      InTurnDistinct(pods, m, es[..|es| - 1]);
      SingleMeans(pods, before, e);
      hide Batched, Put, Pop;
      if e.action.START? && Resolve(pods, e).Some? { PutFacts(before, Resolve(pods, e).value); }
      PopFacts(before, e.name);
    }
  }

  lemma AddsStep(pods: Pods, es: seq<Event>)
    requires es != []
    ensures var before, e := AddsOf(pods, Starts(es[..|es| - 1])), es[|es| - 1];
            AddsOf(pods, Starts(es)) ==
              if e.action.START? && Resolve(pods, e).Some? then before + [Resolve(pods, e).value] else before
  {
    var n := |es| - 1;
    if es[n].action.START? { assert Starts(es)[..|Starts(es)| - 1] == Starts(es[..n]); }
  }

  lemma RemovesStep(es: seq<Event>)
    requires es != []
    ensures var before, e := RemovesOf(Dies(es[..|es| - 1])), es[|es| - 1];
            RemovesOf(Dies(es)) == if e.action.DIE? then before + [e.name] else before
  {
  }

  lemma PutAllStep(m: seq<Workload>, adds: seq<Workload>, w: Workload)
    ensures PutAll(m, adds + [w]) == Put(PutAll(m, adds), w)
  {
    assert (adds + [w])[..|adds|] == adds;
  }

  lemma PopAllStep(m: seq<Workload>, removes: seq<Id>, id: Id)
    ensures PopAll(m, removes + [id]) == Pop(PopAll(m, removes), id)
  {
    assert (removes + [id])[..|removes|] == removes;
  }

  /** One more event at the end of a batch has the effect of a call of its own. */
  lemma BatchedStep(pods: Pods, m: seq<Workload>, es: seq<Event>)
    requires es != [] && DistinctIds(m)
    requires es[|es| - 1].action.DIE? ==>
               forall w :: w in AddsOf(pods, Starts(es[..|es| - 1])) ==> w.id != es[|es| - 1].name
    ensures Batched(pods, m, es) == Single(pods, Batched(pods, m, es[..|es| - 1]), es[|es| - 1])
  {
    hide AddsOf, RemovesOf, Starts, Dies, PutAll, PopAll, Put, Pop, Resolve, DistinctIds, Single;
    var before, e := es[..|es| - 1], es[|es| - 1];
    var adds, removes := AddsOf(pods, Starts(before)), RemovesOf(Dies(before));
    SingleMeans(pods, Batched(pods, m, before), e);
    AddsStep(pods, es);
    RemovesStep(es);
    if e.action.START? && Resolve(pods, e).Some? {
      PutAllStep(PopAll(m, removes), adds, Resolve(pods, e).value);
    } else if e.action.DIE? {
      PopAllStep(m, removes, e.name);
      PopAllFacts(m, removes);
      PopPutAllCommute(PopAll(m, removes), adds, e.name);
    }
  }

  /** No container dies after its workload has been started in the same batch. */
  ghost predicate NoDieAfterStart(pods: Pods, es: seq<Event>) {
    forall k :: 0 <= k < |es| && es[k].action.DIE? ==>
      forall w :: w in AddsOf(pods, Starts(es[..k])) ==> w.id != es[k].name
  }

  /**
    The batch refines the sequence: unless a container dies after a start in the same batch, one call with the
    batch leaves the same workload map, insertion order included, as one call per event in queue order.
   */
  lemma {:induction false} BatchedIsInTurn(pods: Pods, m: seq<Workload>, es: seq<Event>)
    requires DistinctIds(m) && NoDieAfterStart(pods, es)
    ensures Batched(pods, m, es) == InTurn(pods, m, es)
    decreases |es|
  {
    hide AddsOf, Starts, Batched, Single;
    if es == [] {
      EmptyBatch(pods, m);
    } else {
      var n := |es| - 1;
      assert forall k :: 0 <= k < n ==> es[..n][k] == es[k] && es[..n][..k] == es[..k];
      BatchedIsInTurn(pods, m, es[..n]);
      BatchedStep(pods, m, es);
    }
  }

  lemma EmptyBatch(pods: Pods, m: seq<Workload>)
    ensures Batched(pods, m, []) == m
  {
  }

  /** In particular when no id is both started and died. */
  lemma {:induction false} DisjointIsEnough(pods: Pods, es: seq<Event>)
    requires forall w :: w in AddsOf(pods, Starts(es)) ==> w.id !in RemovesOf(Dies(es))
    ensures NoDieAfterStart(pods, es)
    decreases |es|
  {
    if es != [] {
      var n := |es| - 1;
      AddsGrow(pods, es);
      DisjointIsEnough(pods, es[..n]);
      forall k | 0 <= k < |es| && es[k].action.DIE?
        ensures forall w :: w in AddsOf(pods, Starts(es[..k])) ==> w.id != es[k].name
      {
        if k < n {
          assert es[..n][k] == es[k] && es[..n][..k] == es[..k];
        } else {
          assert es[..k] == es[..n];
          RemovesStep(es);
        }
      }
    }
  }

  lemma AddsGrow(pods: Pods, es: seq<Event>)
    requires es != []
    ensures forall w :: w in AddsOf(pods, Starts(es[..|es| - 1])) ==> w in AddsOf(pods, Starts(es))
    ensures forall id :: id in RemovesOf(Dies(es[..|es| - 1])) ==> id in RemovesOf(Dies(es))
  {
    hide AddsOf, RemovesOf, Starts, Dies;
    AddsStep(pods, es);
    RemovesStep(es);
  }

  // ---- and otherwise ----

  /** What the events, taken in turn, finally say about an id. */
  datatype Word = Nothing | Started(w: Workload) | Died

  function LastWord(pods: Pods, es: seq<Event>, id: Id): Word {
    if es == [] then Nothing else
      var before, e := es[..|es| - 1], es[|es| - 1];
      if e.action.START? && Resolve(pods, e).Some? && Resolve(pods, e).value.id == id
      then Started(Resolve(pods, e).value)
      else if e.action.DIE? && e.name == id then Died
      else LastWord(pods, before, id)
  }

  /** The last start of an id in the batch, wherever its dies are. */
  function LastStart(pods: Pods, es: seq<Event>, id: Id): Option<Workload> {
    if es == [] then None else
      var before, e := es[..|es| - 1], es[|es| - 1];
      if e.action.START? && Resolve(pods, e).Some? && Resolve(pods, e).value.id == id then Some(Resolve(pods, e).value)
      else LastStart(pods, before, id)
  }

  lemma {:induction false} InTurnMember(pods: Pods, m: seq<Workload>, es: seq<Event>, w: Workload)
    requires DistinctIds(m)
    ensures w in InTurn(pods, m, es) <==>
            match LastWord(pods, es, w.id)
            case Nothing => w in m
            case Started(v) => w == v
            case Died => false
    decreases |es|
  {
    if es != [] {
      var n := |es| - 1;
      hide Put, Pop, Resolve, DistinctIds, Single;
      var before, e := InTurn(pods, m, es[..n]), es[n];
      SingleMeans(pods, before, e);
      InTurnMember(pods, m, es[..n], w);
      InTurnDistinct(pods, m, es[..n]);
      if e.action.START? && Resolve(pods, e).Some? { PutFacts(before, Resolve(pods, e).value); }
      PopFacts(before, e.name);
    }
  }

  /** The workload an id is last added with. */
  function LastAdd(adds: seq<Workload>, id: Id): Option<Workload> {
    if adds == [] then None else
    if adds[|adds| - 1].id == id then Some(adds[|adds| - 1]) else LastAdd(adds[..|adds| - 1], id)
  }

  lemma {:induction false} PutAllMember(m: seq<Workload>, adds: seq<Workload>, w: Workload)
    requires DistinctIds(m)
    ensures w in PutAll(m, adds) <==> match LastAdd(adds, w.id) case Some(v) => w == v case None => w in m
    decreases |adds|
  {
    if adds != [] {
      var n := |adds| - 1;
      PutAllMember(m, adds[..n], w);
      PutAllFacts(m, adds[..n]);
      PutFacts(PutAll(m, adds[..n]), adds[n]);
    }
  }

  lemma {:induction false} LastAddIsLastStart(pods: Pods, es: seq<Event>, id: Id)
    ensures LastAdd(AddsOf(pods, Starts(es)), id) == LastStart(pods, es, id)
    decreases |es|
  {
    hide Resolve, Starts, AddsOf;
    if es == [] {
      EmptyAdds(pods);
    } else {
      var n := |es| - 1;
      LastAddIsLastStart(pods, es[..n], id);
      AddsStep(pods, es);
      LastAddStep(AddsOf(pods, Starts(es[..n])), Resolve(pods, es[n]), id);
    }
  }

  lemma EmptyAdds(pods: Pods)
    ensures AddsOf(pods, Starts([])) == []
  {
  }

  lemma LastAddStep(adds: seq<Workload>, next: Option<Workload>, id: Id)
    ensures next.Some? ==>
              LastAdd(adds + [next.value], id) == if next.value.id == id then Some(next.value) else LastAdd(adds, id)
  {
    if next.Some? { assert (adds + [next.value])[..|adds|] == adds; }
  }

  /** In a batch the start wins: a started id is in the map whatever its dies say and wherever they stand. */
  lemma BatchedMember(pods: Pods, m: seq<Workload>, es: seq<Event>, w: Workload)
    requires DistinctIds(m)
    ensures w in Batched(pods, m, es) <==>
            match LastStart(pods, es, w.id)
            case Some(v) => w == v
            case None => w in m && w.id !in RemovesOf(Dies(es))
  {
    var adds, removes := AddsOf(pods, Starts(es)), RemovesOf(Dies(es));
    PopAllFacts(m, removes);
    PutAllMember(PopAll(m, removes), adds, w);
    LastAddIsLastStart(pods, es, w.id);
  }

  lemma {:induction false} WordFacts(pods: Pods, es: seq<Event>, id: Id)
    ensures LastStart(pods, es, id).Some? ==>
              var v := LastStart(pods, es, id).value;
              v.id == id && (LastWord(pods, es, id) == Started(v) || LastWord(pods, es, id) == Died)
    ensures LastStart(pods, es, id).None? ==>
              LastWord(pods, es, id) == if id in RemovesOf(Dies(es)) then Died else Nothing
    decreases |es|
  {
    if es != [] {
      var n := |es| - 1;
      WordFacts(pods, es[..n], id);
      RemovesStep(es);
    }
  }

  /** The last event of every started id is a start. */
  ghost predicate NobodyEndsDead(pods: Pods, es: seq<Event>) {
    forall id :: LastStart(pods, es, id).Some? ==> LastWord(pods, es, id).Started?
  }

  /**
    Exactly when a batch and its events in turn leave the same workloads: every id started in the batch must have
    a start as its last event.
   */
  lemma SameEntriesIff(pods: Pods, m: seq<Workload>, es: seq<Event>)
    requires DistinctIds(m)
    ensures (forall w :: w in Batched(pods, m, es) <==> w in InTurn(pods, m, es)) <==>
            NobodyEndsDead(pods, es)
  {
    hide Batched, InTurn, LastStart, LastWord, RemovesOf, Dies;
    if NobodyEndsDead(pods, es) {
      forall w: Workload ensures w in Batched(pods, m, es) <==> w in InTurn(pods, m, es) {
        AgreeUnlessDied(pods, m, es, w);
      }
    } else {
      var id :| LastStart(pods, es, id).Some? && !LastWord(pods, es, id).Started?;
      WordFacts(pods, es, id);
      AgreeUnlessDied(pods, m, es, LastStart(pods, es, id).value);
    }
  }

  lemma AgreeUnlessDied(pods: Pods, m: seq<Workload>, es: seq<Event>, w: Workload)
    requires DistinctIds(m)
    ensures (w in Batched(pods, m, es) <==> w in InTurn(pods, m, es)) <==>
            !(LastStart(pods, es, w.id) == Some(w) && LastWord(pods, es, w.id).Died?)
  {
    hide Batched, InTurn, LastStart, LastWord, RemovesOf, Dies;
    BatchedMember(pods, m, es, w);
    InTurnMember(pods, m, es, w);
    WordFacts(pods, es, w.id);
  }
}
