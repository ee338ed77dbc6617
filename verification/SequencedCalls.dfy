/**
  A batch handled by one call of the manager, and the same events by one call each, whatever the allocator comes to.
  A call whose allocator raises leaves the workload map as it was, so the two can only be compared if the allocator
  answers all of them.
 */
module SequencedCalls {
  import opened Collections
  import opened Topology
  import opened GreedyPlacement
  import opened Allocations
  import opened Allocators
  import opened Fallback
  import opened WorkloadMap
  import opened Cgroups
  import opened Manager
  import opened ManagerRuns
  import opened Rebalancing
  import opened EventQueue
  import opened BatchHandling
  import opened InsertionOrder

  /** What one call finds outside, what the allocator comes to, and which files can be written. */
  datatype Reply = Reply(outside: Outside, out: Attempt, reachable: set<(Id, File)>)

  /** One call with a batch. */
  function BatchCall(pods: Pods, s: Sys, es: seq<Event>, reply: Reply): Sys {
    IsolateStep(s, AddsOf(pods, Starts(es)), RemovesOf(Dies(es)), reply.out, reply.reachable)
  }

  /** One call per event, in queue order. */
  function CallsInTurn(pods: Pods, s: Sys, es: seq<Event>, replies: seq<Reply>): Sys
    requires |replies| == |es|
  {
    if es == [] then s else
      var n := |es| - 1;
      BatchCall(pods, CallsInTurn(pods, s, es[..n], replies[..n]), [es[n]], replies[n])
  }

  /** The events whose calls were answered. */
  function Heard(es: seq<Event>, replies: seq<Reply>): seq<Event>
    requires |replies| == |es|
  {
    if es == [] then [] else
      var n := |es| - 1;
      Heard(es[..n], replies[..n]) + (if replies[n].out.Answered? then [es[n]] else [])
  }

  ghost predicate AllAnswered(replies: seq<Reply>) {
    forall k :: 0 <= k < |replies| ==> replies[k].out.Answered?
  }

  lemma {:induction false} AllHeard(es: seq<Event>, replies: seq<Reply>)
    requires |replies| == |es| && AllAnswered(replies)
    ensures Heard(es, replies) == es
    decreases |es|
  {
    if es != [] {
      var n := |es| - 1;
      AllHeard(es[..n], replies[..n]);
      assert es == es[..n] + [es[n]];
    }
  }

  /** A call takes the batch over, or keeps the map. */
  lemma BatchMap(pods: Pods, s: Sys, es: seq<Event>, reply: Reply)
    ensures BatchCall(pods, s, es, reply).ws == if reply.out.Answered? then Batched(pods, s.ws, es) else s.ws
  {
  }

  /** In turn only the events whose calls were answered have an effect on the map. */
  lemma {:induction false} TurnMap(pods: Pods, s: Sys, es: seq<Event>, replies: seq<Reply>)
    requires |replies| == |es|
    ensures CallsInTurn(pods, s, es, replies).ws == InTurn(pods, s.ws, Heard(es, replies))
    decreases |es|
  {
    hide BatchCall, Batched;
    if es != [] {
      var n := |es| - 1;
      TurnMap(pods, s, es[..n], replies[..n]);
      BatchMap(pods, CallsInTurn(pods, s, es[..n], replies[..n]), [es[n]], replies[n]);
      var heard := Heard(es[..n], replies[..n]);
      if replies[n].out.Answered? {
        assert (heard + [es[n]])[..|heard|] == heard;
      } else {
        assert heard + [] == heard;
      }
    }
  }

  /** So in turn the last event of an id whose call was answered decides. */
  lemma TurnMember(pods: Pods, s: Sys, es: seq<Event>, replies: seq<Reply>, w: Workload)
    requires |replies| == |es| && DistinctIds(s.ws)
    ensures w in CallsInTurn(pods, s, es, replies).ws <==>
            match LastWord(pods, Heard(es, replies), w.id)
            case Nothing => w in s.ws
            case Started(v) => w == v
            case Died => false
  {
    TurnMap(pods, s, es, replies);
    InTurnMember(pods, s.ws, Heard(es, replies), w);
  }

  /** What a call with a batch says about an id: the start wins. */
  function BatchWord(pods: Pods, es: seq<Event>, reply: Reply, id: Id): Word {
    if reply.out.Failed? then Nothing else
      match LastStart(pods, es, id)
      case Some(w) => Started(w)
      case None => if id in RemovesOf(Dies(es)) then Died else Nothing
  }

  /** The entry of an id, given the map before and what was said. */
  function Entry(m: seq<Workload>, id: Id, word: Word): Option<Workload> {
    match word
    case Nothing => LastAdd(m, id)
    case Started(w) => Some(w)
    case Died => None
  }

  lemma {:induction false} EntryIn(m: seq<Workload>, id: Id)
    requires DistinctIds(m)
    ensures forall w: Workload :: w.id == id ==> (w in m <==> LastAdd(m, id) == Some(w))
    ensures LastAdd(m, id).Some? ==> LastAdd(m, id).value.id == id
    decreases |m|
  {
    if m != [] {
      var n := |m| - 1;
      IdsPrefix(m);
      EntryIn(m[..n], id);
      assert m == m[..n] + [m[n]];
      forall w | w in m[..n] ensures w.id in Ids(m[..n]) {
        MemberId(m[..n], w);
      }
    }
  }

  /** Every word about an id is about a workload of that id. */
  lemma WordsOfId(pods: Pods, es: seq<Event>, id: Id)
    ensures LastStart(pods, es, id).Some? ==> LastStart(pods, es, id).value.id == id
    ensures LastWord(pods, es, id).Started? ==> LastWord(pods, es, id).w.id == id
  {
    WordFacts(pods, es, id);
  }

  /**
    Whatever the allocator comes to at any of the calls: both leave the same workloads exactly when, for every id, the
    batch and the last event that was heard say the same.
   */
  lemma {:induction false} SameAnywayIff(pods: Pods, s: Sys, es: seq<Event>, reply: Reply, replies: seq<Reply>)
    requires |replies| == |es| && DistinctIds(s.ws)
    ensures (forall w :: w in BatchCall(pods, s, es, reply).ws <==> w in CallsInTurn(pods, s, es, replies).ws) <==>
            forall id :: Entry(s.ws, id, BatchWord(pods, es, reply, id))
                      == Entry(s.ws, id, LastWord(pods, Heard(es, replies), id))
  {
    hide BatchCall, CallsInTurn, DistinctIds, Heard, LastWord, LastStart, LastAdd, RemovesOf, Dies;
    hide BatchWord, Entry;
    var one, each := BatchCall(pods, s, es, reply).ws, CallsInTurn(pods, s, es, replies).ws;
    if forall w :: w in one <==> w in each {
      forall id
        ensures Entry(s.ws, id, BatchWord(pods, es, reply, id))
             == Entry(s.ws, id, LastWord(pods, Heard(es, replies), id))
      {
        EntriesOf(pods, s, es, reply, replies, id);
        var b := Entry(s.ws, id, BatchWord(pods, es, reply, id));
        var t := Entry(s.ws, id, LastWord(pods, Heard(es, replies), id));
        assert b.Some? ==> b.value in one;
        assert t.Some? ==> t.value in each;
      }
    } else {
      var w :| !(w in one <==> w in each);
      EntriesOf(pods, s, es, reply, replies, w.id);
    }
  }

  lemma EntriesOf(pods: Pods, s: Sys, es: seq<Event>, reply: Reply, replies: seq<Reply>, id: Id)
    requires |replies| == |es| && DistinctIds(s.ws)
    ensures var one, entry := BatchCall(pods, s, es, reply).ws, Entry(s.ws, id, BatchWord(pods, es, reply, id));
            && (forall w: Workload :: w.id == id ==> (w in one <==> entry == Some(w)))
            && (entry.Some? ==> entry.value.id == id)
    ensures var each := CallsInTurn(pods, s, es, replies).ws;
            var entry := Entry(s.ws, id, LastWord(pods, Heard(es, replies), id));
            && (forall w: Workload :: w.id == id ==> (w in each <==> entry == Some(w)))
            && (entry.Some? ==> entry.value.id == id)
  {
    hide BatchCall, CallsInTurn, DistinctIds, Heard, LastWord, LastStart, LastAdd, RemovesOf, Dies, Batched;
    EntryIn(s.ws, id);
    WordsOfId(pods, es, id);
    WordsOfId(pods, Heard(es, replies), id);
    BatchMap(pods, s, es, reply);
    forall w: Workload | w.id == id
      ensures w in BatchCall(pods, s, es, reply).ws <==>
              Entry(s.ws, id, BatchWord(pods, es, reply, id)) == Some(w)
      ensures w in CallsInTurn(pods, s, es, replies).ws <==>
              Entry(s.ws, id, LastWord(pods, Heard(es, replies), id)) == Some(w)
    {
      BatchedMember(pods, s.ws, es, w);
      TurnMember(pods, s, es, replies, w);
    }
  }

  // ---- if all calls are answered ----

  /**
    The batch refines the sequence: if the allocator answers all the calls, and no container dies after a start in the
    same batch, one call with the batch leaves the same workload map, insertion order included, as one call per event.
   */
  lemma {:induction false} BatchRefinesSequence(pods: Pods, s: Sys, es: seq<Event>, reply: Reply, replies: seq<Reply>)
    requires |replies| == |es| && DistinctIds(s.ws) && reply.out.Answered? && AllAnswered(replies)
    requires NoDieAfterStart(pods, es)
    ensures BatchCall(pods, s, es, reply).ws == CallsInTurn(pods, s, es, replies).ws
  {
    hide BatchCall, CallsInTurn, NoDieAfterStart, DistinctIds, Batched, InTurn;
    AllHeard(es, replies);
    TurnMap(pods, s, es, replies);
    BatchMap(pods, s, es, reply);
    BatchedIsInTurn(pods, s.ws, es);
  }

  /** Exactly when both leave the same workloads, if the allocator answers all the calls. */
  lemma {:induction false} SameWorkloadsIff(pods: Pods, s: Sys, es: seq<Event>, reply: Reply, replies: seq<Reply>)
    requires |replies| == |es| && DistinctIds(s.ws) && reply.out.Answered? && AllAnswered(replies)
    ensures (forall w :: w in BatchCall(pods, s, es, reply).ws <==> w in CallsInTurn(pods, s, es, replies).ws) <==>
            NobodyEndsDead(pods, es)
  {
    hide BatchCall, CallsInTurn, NobodyEndsDead, DistinctIds, Batched, InTurn;
    AllHeard(es, replies);
    TurnMap(pods, s, es, replies);
    BatchMap(pods, s, es, reply);
    SameEntriesIff(pods, s.ws, es);
  }

  /** And exactly when both leave the same map, insertion order included. */
  lemma {:induction false} SameMapInTurnIff(pods: Pods, s: Sys, es: seq<Event>, reply: Reply, replies: seq<Reply>)
    requires |replies| == |es| && DistinctIds(s.ws) && reply.out.Answered? && AllAnswered(replies)
    ensures BatchCall(pods, s, es, reply).ws == CallsInTurn(pods, s, es, replies).ws <==>
            NobodyEndsDead(pods, es) && SameOrder(pods, s.ws, es)
  {
    hide BatchCall, CallsInTurn, NobodyEndsDead, SameOrder, DistinctIds, Batched, InTurn;
    AllHeard(es, replies);
    TurnMap(pods, s, es, replies);
    BatchMap(pods, s, es, reply);
    SameMapIff(pods, s.ws, es);
  }

  // ---- when they are ----

  ghost predicate CallMay(pods: Pods, allocator: Allocator, shape: Shape, flags: Flags, s: Sys, es: seq<Event>,
                          reply: Reply) {
    May(allocator, shape, s.pl, Batched(pods, s.ws, es), flags, reply.outside, reply.out)
  }

  /** What the calls in turn may come to. */
  ghost predicate TurnsMay(pods: Pods, allocator: Allocator, shape: Shape, flags: Flags, s: Sys, es: seq<Event>,
                           replies: seq<Reply>)
    requires |replies| == |es|
  {
    forall k :: 0 <= k < |es| ==>
      CallMay(pods, allocator, shape, flags, CallsInTurn(pods, s, es[..k], replies[..k]), [es[k]], replies[k])
  }

  /** With a naive secondary all the calls are answered, so the batch always refines the sequence. */
  lemma {:induction false} NaiveBackedRefines(pods: Pods, primary: Basic, depth: nat, shape: Shape, flags: Flags,
                                              s: Sys, es: seq<Event>, reply: Reply, replies: seq<Reply>)
    requires |replies| == |es| && DistinctIds(s.ws) && NoDieAfterStart(pods, es)
    requires CallMay(pods, Backed(primary, Naive, depth), shape, flags, s, es, reply)
    requires TurnsMay(pods, Backed(primary, Naive, depth), shape, flags, s, es, replies)
    ensures reply.out.Answered? && AllAnswered(replies)
    ensures BatchCall(pods, s, es, reply).ws == CallsInTurn(pods, s, es, replies).ws
  {
    hide May, BatchCall, CallsInTurn, NoDieAfterStart, DistinctIds, Batched;
    NaiveAlwaysAnswers(primary, depth, shape, s.pl, Batched(pods, s.ws, es), flags, reply.outside, reply.out);
    forall k | 0 <= k < |es| ensures replies[k].out.Answered? {
      var t := CallsInTurn(pods, s, es[..k], replies[..k]);
      var e, r := es[k], replies[k];
      NaiveAlwaysAnswers(primary, depth, shape, t.pl, Batched(pods, t.ws, [e]), flags, r.outside, r.out);
    }
    BatchRefinesSequence(pods, s, es, reply, replies);
  }

  lemma {:induction false} TurnsKeep(pods: Pods, shape: Shape, flags: Flags, s: Sys, es: seq<Event>,
                                     replies: seq<Reply>, k: nat)
    requires |replies| == |es| && k <= |es| && WellFormed(shape) && Covers(shape, s.pl) && DistinctIds(s.ws)
    requires TurnsMay(pods, Single(Greedy), shape, flags, s, es, replies)
    ensures var t := CallsInTurn(pods, s, es[..k], replies[..k]);
            Covers(shape, t.pl) && DistinctIds(t.ws)
    decreases k
  {
    hide WellFormed, Covers, DistinctIds, GreedyIsolate, AllocationsOf, Batched, AddsOf, Starts, Dies, RemovesOf, Apply;
    if k > 0 {
      TurnsKeep(pods, shape, flags, s, es, replies, k - 1);
      assert es[..k][..k - 1] == es[..k - 1] && replies[..k][..k - 1] == replies[..k - 1];
      var t := CallsInTurn(pods, s, es[..k - 1], replies[..k - 1]);
      var e, r := es[k - 1], replies[k - 1];
      assert CallMay(pods, Single(Greedy), shape, flags, t, [e], r);
      CallKeeps(pods, shape, flags, t, [e], r);
    }
  }

  lemma {:induction false} CallKeeps(pods: Pods, shape: Shape, flags: Flags, s: Sys, es: seq<Event>, reply: Reply)
    requires WellFormed(shape) && Covers(shape, s.pl) && DistinctIds(s.ws)
    requires CallMay(pods, Single(Greedy), shape, flags, s, es, reply)
    ensures var t := BatchCall(pods, s, es, reply);
            Covers(shape, t.pl) && DistinctIds(t.ws)
  {
    hide WellFormed, Covers, DistinctIds, GreedyIsolate, AllocationsOf, Requested, Apply, AddsOf, RemovesOf;
    RequestedFacts(s.ws, AddsOf(pods, Starts(es)), RemovesOf(Dies(es)));
    GreedyLeavesCovered(shape, s.pl, Batched(pods, s.ws, es));
  }

  /**
    With the greedy allocator, if all the single calls fit, the call with the batch fits too and leaves the same CPU,
    workload map and last response.
   */
  lemma {:induction false} BatchLeavesSameCpu(pods: Pods, shape: Shape, flags: Flags, s: Sys, es: seq<Event>,
                                              reply: Reply, replies: seq<Reply>)
    requires |replies| == |es| && WellFormed(shape) && Covers(shape, s.pl) && DistinctIds(s.ws)
    requires NoDieAfterStart(pods, es) && es != [] && AllAnswered(replies)
    requires CallMay(pods, Single(Greedy), shape, flags, s, es, reply)
    requires TurnsMay(pods, Single(Greedy), shape, flags, s, es, replies)
    ensures reply.out.Answered?
    ensures var one, each := BatchCall(pods, s, es, reply), CallsInTurn(pods, s, es, replies);
            one.pl == each.pl && one.ws == each.ws && one.last == each.last
  {
    hide *;
    var n := |es| - 1;
    TurnsKeep(pods, shape, flags, s, es, replies, n);
    var t := CallsInTurn(pods, s, es[..n], replies[..n]);
    LastCall(pods, shape, flags, s, es, replies);
    AllHeard(es, replies);
    TurnMap(pods, s, es, replies);
    BatchMap(pods, t, [es[n]], replies[n]);
    BatchedIsInTurn(pods, s.ws, es);
    SameGreedyCalls(pods, shape, flags, s, es, reply, t, [es[n]], replies[n]);
  }

  lemma LastCall(pods: Pods, shape: Shape, flags: Flags, s: Sys, es: seq<Event>, replies: seq<Reply>)
    requires |replies| == |es| && es != [] && TurnsMay(pods, Single(Greedy), shape, flags, s, es, replies)
    ensures var n := |es| - 1;
            var t := CallsInTurn(pods, s, es[..n], replies[..n]);
            && CallMay(pods, Single(Greedy), shape, flags, t, [es[n]], replies[n])
            && CallsInTurn(pods, s, es, replies) == BatchCall(pods, t, [es[n]], replies[n])
            && (AllAnswered(replies) ==> replies[n].out.Answered?)
  {
    hide BatchCall, CallMay;
  }

  /** Two calls of the greedy allocator with the same request leave the same. */
  lemma SameGreedyCalls(pods: Pods, shape: Shape, flags: Flags, s: Sys, es: seq<Event>, reply: Reply,
                        t: Sys, es': seq<Event>, reply': Reply)
    requires CallMay(pods, Single(Greedy), shape, flags, s, es, reply)
    requires CallMay(pods, Single(Greedy), shape, flags, t, es', reply')
    requires Covers(shape, s.pl) && Covers(shape, t.pl) && reply'.out.Answered?
    requires Batched(pods, s.ws, es) == Batched(pods, t.ws, es')
    ensures reply.out.Answered?
    ensures var one, each := BatchCall(pods, s, es, reply), BatchCall(pods, t, es', reply');
            one.pl == each.pl && one.ws == each.ws && one.last == each.last
  {
    hide GreedyIsolate, AllocationsOf, AddsOf, RemovesOf, Starts, Dies, Requested, Apply;
    ClearedAlike(shape, s.pl, t.pl, Batched(pods, s.ws, es));
  }

  // ---- and two inputs ----

  /** What the greedy allocator comes to. */
  lemma GreedyAttempt(shape: Shape, pl: Placement, ws: seq<Workload>, flags: Flags, outside: Outside)
    returns (out: Attempt)
    requires WellFormed(shape) && Covers(shape, pl) && DistinctIds(ws)
    ensures May(Single(Greedy), shape, pl, ws, flags, outside, out) && OnCpu(shape, out)
    ensures out.Answered? <==> Total(ws) <= |Threads(shape)|
  {
    hide WellFormed, DistinctIds, GreedyIsolate, AllocationsOf;
    GreedyExact(shape, pl, ws);
    GreedyLeavesCovered(shape, pl, ws);
    out := match GreedyIsolate(shape, pl, ws)
      case Placed(pl') => Answered(Respond(shape, pl', ws, flags))
      case Raised(left) => Failed(left);
  }

  lemma SmallTotals(v: Workload, w: Workload)
    requires v.id != w.id
    ensures Total([]) == 0 && Total([w]) == w.count && Total([v, w]) == v.count + w.count
    ensures DistinctIds([]) && DistinctIds([w]) && DistinctIds([v, w])
  {
    assert [w][..0] == [] && [v, w][..1] == [v] && [v][..0] == [];
  }

  lemma SmallMaps(v: Workload, w: Workload)
    requires v.id != w.id
    ensures Put([], w) == [w] && Put([v], w) == [v, w]
    ensures Pop([w], w.id) == [] && Pop([v, w], v.id) == [w]
  {
    PopAt([w], w.id, 0);
    PopAt([v, w], v.id, 0);
  }

  function StartOf(w: Workload): Event { Event(START, "task", w.id) }

  function DieOf(w: Workload): Event { Event(DIE, "task", w.id) }

  lemma KindsOfTwo(d: Event, e: Event, kind: Kind)
    ensures OfKind([d], kind) == (if HasKind(d, kind) then [d] else [])
    ensures OfKind([d, e], kind) == (if HasKind(d, kind) then [d] else []) + (if HasKind(e, kind) then [e] else [])
  {
    hide HasKind;
    assert [d, e][..1] == [d] && [d][..0] == [];
  }

  /** The adds and removes of a start, and of a start and a die. */
  lemma SmallBatches(pods: Pods, v: Workload, w: Workload)
    requires w.id != "" && w.id in pods && pods[w.id] == w
    ensures Starts([StartOf(w)]) == [StartOf(w)] && Starts([StartOf(w), DieOf(v)]) == [StartOf(w)]
    ensures AddsOf(pods, [StartOf(w)]) == [w] && AddsOf(pods, Starts([])) == []
    ensures RemovesOf(Dies([StartOf(w), DieOf(v)])) == [v.id] && RemovesOf(Dies([StartOf(w)])) == []
  {
    hide OfKind, RemovesOf;
    KindsOfTwo(StartOf(w), DieOf(v), StartKind);
    KindsOfTwo(StartOf(w), DieOf(v), DieKind);
    assert [] + [DieOf(v)] == [DieOf(v)];
    RemovesOfOne(v);
    EmptyAdds(pods);
    AddsOfOne(pods, w);
  }

  lemma RemovesOfOne(v: Workload)
    ensures RemovesOf([DieOf(v)]) == [v.id] && RemovesOf([]) == []
  {
  }

  lemma AddsOfOne(pods: Pods, w: Workload)
    requires w.id != "" && w.id in pods && pods[w.id] == w
    ensures AddsOf(pods, [StartOf(w)]) == [w]
  {
    assert [StartOf(w)][..0] == [];
  }

  /** The last event of the only id that is started is its start. */
  lemma EndsOnStart(pods: Pods, v: Workload, w: Workload)
    requires v.id != w.id && w.id != "" && pods == map[w.id := w]
    ensures NobodyEndsDead(pods, [StartOf(w), DieOf(v)])
  {
    var es := [StartOf(w), DieOf(v)];
    assert es[..1] == [StartOf(w)];
    forall id | LastStart(pods, es, id).Some? ensures LastWord(pods, es, id).Started? {
      WordsOfStart(pods, w, id);
      assert LastStart(pods, es, id) == LastStart(pods, es[..1], id);
    }
  }

  lemma WordsOfStart(pods: Pods, w: Workload, id: Id)
    requires w.id != "" && pods == map[w.id := w]
    ensures LastStart(pods, [StartOf(w)], id).Some? <==> id == w.id
    ensures id == w.id ==> LastWord(pods, [StartOf(w)], id) == Started(w)
  {
    assert [StartOf(w)][..0] == [];
    assert Resolve(pods, StartOf(w)) == Some(w);
  }

  /**
    Why the calls must be answered: one thread, held by `v`; `w` starts and `v` dies. No id is both started and died.
    In turn the greedy allocator raises at the start, and the die empties the map; the batch leaves `w` in it.
   */
  lemma {:induction false} SingleCallRaises(shape: Shape, flags: Flags, pl: Placement, v: Workload, w: Workload,
                                            outside: Outside)
    returns (pods: Pods, s: Sys, es: seq<Event>, reply: Reply, replies: seq<Reply>)
    requires WellFormed(shape) && Covers(shape, pl) && |Threads(shape)| == 1
    requires v.count == 1 && w.count == 1 && v.id != w.id && w.id != ""
    ensures |replies| == |es| && NoDieAfterStart(pods, es) && NobodyEndsDead(pods, es)
    ensures exists out :: May(Single(Greedy), shape, pl, [v], flags, outside, out)
                       && s == IsolateStep(Fresh(pl), [v], [], out, {})
    ensures CallMay(pods, Single(Greedy), shape, flags, s, es, reply)
    ensures TurnsMay(pods, Single(Greedy), shape, flags, s, es, replies)
    ensures reply.out.Answered? && !AllAnswered(replies)
    ensures BatchCall(pods, s, es, reply).ws == [w] && CallsInTurn(pods, s, es, replies).ws == []
  {
    hide WellFormed, GreedyIsolate, AllocationsOf, Covers, May, DistinctIds, Total, HeldBy, NoDieAfterStart,
         NobodyEndsDead;
    SmallTotals(v, w);
    SmallTotals(w, v);
    RestartRequests(v);
    var placed := GreedyAnswer(shape, flags, pl, v, outside);
    s := IsolateStep(Fresh(pl), [v], [], placed, {});
    assert s.ws == [v] && s.pl == placed.response.pl && Covers(shape, s.pl) by { SameThreads(shape, pl, s.pl); }
    pods, es := map[w.id := w], [StartOf(w), DieOf(v)];
    MapAfterStart(pods, v, w);
    MapAfterDie(pods, v, w);
    MapAfterBoth(pods, v, w);
    OthersDie(pods, v, w);
    EndsOnStart(pods, v, w);
    var first := GreedyAttempt(shape, s.pl, [v, w], flags, outside);
    var second := GreedyAttempt(shape, s.pl, [], flags, outside);
    var both := GreedyAttempt(shape, s.pl, [w], flags, outside);
    replies := [Reply(outside, first, {}), Reply(outside, second, {})];
    reply := Reply(outside, both, {});
    TwoCalls(pods, s, es, replies);
    assert TurnsMay(pods, Single(Greedy), shape, flags, s, es, replies) by {
      TwoMay(pods, shape, flags, s, es, replies);
    }
    assert replies[0].out.Failed?;
  }

  lemma SameThreads(shape: Shape, pl: Placement, pl': Placement)
    requires Covers(shape, pl) && pl'.Keys == pl.Keys
    ensures Covers(shape, pl')
  {
  }

  /** The map after the start, after the die alone, and after a batch of both. */
  lemma MapAfterStart(pods: Pods, v: Workload, w: Workload)
    requires v.id != w.id && w.id != "" && pods == map[w.id := w]
    ensures Batched(pods, [v], [StartOf(w)]) == [v, w]
  {
    hide Put;
    SmallMaps(v, w);
    SingleMeans(pods, [v], StartOf(w));
  }

  lemma MapAfterDie(pods: Pods, v: Workload, w: Workload)
    requires v.id != w.id
    ensures Batched(pods, [v], [DieOf(v)]) == [] && Batched(pods, [v, w], [DieOf(v)]) == [w]
  {
    hide Pop;
    SmallMaps(v, w);
    SmallMaps(w, v);
    SingleMeans(pods, [v], DieOf(v));
    SingleMeans(pods, [v, w], DieOf(v));
  }

  lemma MapAfterBoth(pods: Pods, v: Workload, w: Workload)
    requires v.id != w.id && w.id != "" && pods == map[w.id := w]
    ensures Batched(pods, [v], [StartOf(w), DieOf(v)]) == [w]
  {
    hide Batched, Put, Pop, DistinctIds;
    var es := [StartOf(w), DieOf(v)];
    assert es[..1] == [StartOf(w)];
    SmallBatches(pods, v, w);
    SmallTotals(w, v);
    MapAfterStart(pods, v, w);
    MapAfterDie(pods, v, w);
    BatchedStep(pods, [v], es);
  }

  lemma OthersDie(pods: Pods, v: Workload, w: Workload)
    requires v.id != w.id && w.id != "" && pods == map[w.id := w]
    ensures NoDieAfterStart(pods, [StartOf(w), DieOf(v)])
  {
    hide AddsOf, Starts;
    var es := [StartOf(w), DieOf(v)];
    SmallBatches(pods, v, w);
    assert es[..1] == [StartOf(w)] && es[..0] == [];
  }

  lemma TwoCalls(pods: Pods, s: Sys, es: seq<Event>, replies: seq<Reply>)
    requires |es| == |replies| == 2
    ensures var t := CallsInTurn(pods, s, es[..1], replies[..1]);
            && t == BatchCall(pods, s, [es[0]], replies[0])
            && CallsInTurn(pods, s, es, replies) == BatchCall(pods, t, [es[1]], replies[1])
            && CallsInTurn(pods, s, es[..0], replies[..0]) == s
  {
    hide BatchCall;
    assert es[..1][..0] == [] && replies[..1][..0] == [] && es[..0] == [] && replies[..0] == [];
  }

  lemma TwoMay(pods: Pods, shape: Shape, flags: Flags, s: Sys, es: seq<Event>, replies: seq<Reply>)
    requires |es| == |replies| == 2
    requires CallMay(pods, Single(Greedy), shape, flags, s, [es[0]], replies[0])
    requires var t := BatchCall(pods, s, [es[0]], replies[0]);
             CallMay(pods, Single(Greedy), shape, flags, t, [es[1]], replies[1])
    ensures TurnsMay(pods, Single(Greedy), shape, flags, s, es, replies)
  {
    hide BatchCall, CallMay;
    TwoCalls(pods, s, es, replies);
    forall k | 0 <= k < 2
      ensures var t := CallsInTurn(pods, s, es[..k], replies[..k]);
              CallMay(pods, Single(Greedy), shape, flags, t, [es[k]], replies[k])
    {
      assert k == 0 || k == 1;
    }
  }

  /**
    Why a started id must end on a start: from a fresh manager, a workload starts and dies. All calls are answered; in
    turn nothing is left, while the batch leaves the workload in the map.
   */
  lemma {:induction false} StartThenDie(shape: Shape, flags: Flags, pl: Placement, w: Workload, outside: Outside)
    returns (pods: Pods, es: seq<Event>, reply: Reply, replies: seq<Reply>)
    requires WellFormed(shape) && Covers(shape, pl) && w.count <= |Threads(shape)| && w.id != ""
    ensures |replies| == |es| && AllAnswered(replies) && reply.out.Answered?
    ensures CallMay(pods, Single(Greedy), shape, flags, Fresh(pl), es, reply)
    ensures TurnsMay(pods, Single(Greedy), shape, flags, Fresh(pl), es, replies)
    ensures BatchCall(pods, Fresh(pl), es, reply).ws == [w] && CallsInTurn(pods, Fresh(pl), es, replies).ws == []
  {
    hide WellFormed, GreedyIsolate, AllocationsOf, Covers, May, DistinctIds, Total;
    var other := Workload(w.id + "'", 0);
    SmallTotals(other, w);
    pods, es := map[w.id := w], [StartOf(w), DieOf(w)];
    StartOnEmpty(pods, w);
    DieOnOne(pods, w);
    BothOnEmpty(pods, w);
    var s := Fresh(pl);
    var first := GreedyAttempt(shape, pl, [w], flags, outside);
    replies := [Reply(outside, first, {})];
    var t := BatchCall(pods, s, [es[0]], replies[0]);
    assert t.ws == [w] && t.pl == first.response.pl && Covers(shape, t.pl);
    var second := GreedyAttempt(shape, t.pl, [], flags, outside);
    replies := [replies[0], Reply(outside, second, {})];
    reply := Reply(outside, first, {});
    TwoCalls(pods, s, es, replies);
    TwoMay(pods, shape, flags, s, es, replies);
  }

  lemma StartOnEmpty(pods: Pods, w: Workload)
    requires w.id != "" && pods == map[w.id := w]
    ensures Batched(pods, [], [StartOf(w)]) == [w]
  {
    SmallMaps(Workload(w.id + "'", 0), w);
    hide Put;
    SingleMeans(pods, [], StartOf(w));
  }

  lemma DieOnOne(pods: Pods, w: Workload)
    ensures Batched(pods, [w], [DieOf(w)]) == []
  {
    SmallMaps(Workload(w.id + "'", 0), w);
    hide Pop;
    SingleMeans(pods, [w], DieOf(w));
  }

  /** In a batch the die comes first. */
  lemma BothOnEmpty(pods: Pods, w: Workload)
    requires w.id != "" && pods == map[w.id := w]
    ensures Batched(pods, [], [StartOf(w), DieOf(w)]) == [w]
  {
    SmallMaps(Workload(w.id + "'", 0), w);
    SmallBatches(pods, w, w);
    hide Put, Pop, AddsOf, RemovesOf, Starts, Dies;
    PutAllStep([], [], w);
    PopAllStep([], [], w.id);
    PopFacts([], w.id);
  }
}
