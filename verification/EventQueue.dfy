/**
  The event manager: producers put events on a queue, one consumer drains it in batches, hands the container
  events of a batch to every handler as one event, then each internal event, and only then accounts for them.
  Producers may act between any two steps of the consumer.
 */
module EventQueue {

  datatype Action = START | DIE | REBALANCE | RECONCILE | PREDICT_USAGE | OTHER(name: string)

  /** `taskId` and `name` are empty where the event does not carry the attribute. */
  datatype Event = Event(action: Action, taskId: string, name: string)

  predicate IsContainer(e: Event) { e.action.START? || e.action.DIE? }

  predicate IsInternal(e: Event) { e.action.REBALANCE? || e.action.RECONCILE? || e.action.PREDICT_USAGE? }

  /** `__should_handle`. */
  predicate ShouldHandle(e: Event) { (IsContainer(e) && e.taskId != "") || IsInternal(e) }

  datatype Kind = StartKind | DieKind | InternalKind

  predicate HasKind(e: Event, kind: Kind) {
    match kind
    case StartKind => e.action.START?
    case DieKind => e.action.DIE?
    case InternalKind => IsInternal(e)
  }

  function OfKind(es: seq<Event>, kind: Kind): seq<Event> {
    if es == [] then [] else
      var n := |es| - 1;
      if HasKind(es[n], kind) then OfKind(es[..n], kind) + [es[n]] else OfKind(es[..n], kind)
  }

  function Starts(es: seq<Event>): seq<Event> { OfKind(es, StartKind) }

  function Dies(es: seq<Event>): seq<Event> { OfKind(es, DieKind) }

  function Internals(es: seq<Event>): seq<Event> { OfKind(es, InternalKind) }

  /** What a handler is given. */
  datatype Delivery = ContainerBatch(starts: seq<Event>, dies: seq<Event>) | Internal(event: Event)

  function Singly(es: seq<Event>): seq<Delivery> {
    seq(|es|, i requires 0 <= i < |es| => Internal(es[i]))
  }

  /** The deliveries of one batch: its container events together, then its internal events one by one. */
  function Plan(batch: seq<Event>): seq<Delivery> {
    (if Starts(batch) + Dies(batch) == [] then [] else [ContainerBatch(Starts(batch), Dies(batch))])
    + Singly(Internals(batch))
  }

  // ---- the steps ----

  /** Where the consumer is. */
  datatype Phase =
    | Idle
    | Waiting
    | Opened(batch: seq<Event>)
    | Draining(batch: seq<Event>, left: nat)
    | Delivering(batch: seq<Event>, event: nat, handler: nat)
    | Accounting(batch: seq<Event>, done: nat)

  /**
    `offered` is every event a producer ever came with, `accepted` every event put on the queue, `processed` every
    event accounted for, `batches` the batches whose delivery has begun, `seen` what each handler has been given;
    `succeeded` and `failed` count the handler calls that returned and those that raised.
   */
  datatype State = State(
    queue: seq<Event>, stopped: bool, phase: Phase, processedCount: nat, tasksDone: nat, succeeded: nat, failed: nat,
    offered: seq<Event>, accepted: seq<Event>, processed: seq<Event>, batches: seq<seq<Event>>,
    seen: seq<seq<Delivery>>)

  /** A consumer that has found itself not stopped waits for an event, and takes it even if stopped meanwhile. */
  datatype Step =
    | Enqueue(e: Event) | Stop | Poll | TimeOut | DequeueFirst | ReadSize | DequeueMore
    | DeliverNext(raised: bool) | AccountNext

  function Initial(handlers: nat): State {
    State([], false, Idle, 0, 0, 0, 0, [], [], [], [], seq(handlers, i => []))
  }

  function Next(s: State, step: Step): State {
    match step
    case Enqueue(e) =>
      if ShouldHandle(e)
      then s.(offered := s.offered + [e], queue := s.queue + [e], accepted := s.accepted + [e])
      else s.(offered := s.offered + [e])
    case Stop => s.(stopped := true)
    case Poll =>
      if s.phase.Idle? && !s.stopped then s.(phase := Waiting) else s
    case TimeOut =>
      if s.phase.Waiting? && s.queue == [] then s.(phase := Idle) else s
    case DequeueFirst =>
      if s.phase.Waiting? && s.queue != []
      then s.(queue := s.queue[1..], phase := Opened([s.queue[0]])) else s
    case ReadSize =>
      if s.phase.Opened? then s.(phase := Draining(s.phase.batch, |s.queue|)) else s
    case DequeueMore =>
      if !s.phase.Draining? then s
      else if s.phase.left > 0 && s.queue != []
      then s.(queue := s.queue[1..], phase := Draining(s.phase.batch + [s.queue[0]], s.phase.left - 1))
      else s.(phase := Delivering(s.phase.batch, 0, 0), batches := s.batches + [s.phase.batch])
    case DeliverNext(raised) =>
      if !s.phase.Delivering? then s else
        var (batch, i, h) := (s.phase.batch, s.phase.event, s.phase.handler);
        if i >= |Plan(batch)| then s.(phase := Accounting(batch, 0))
        else if h < |s.seen|
        then s.(phase := Delivering(batch, i, h + 1), seen := s.seen[h := s.seen[h] + [Plan(batch)[i]]],
                succeeded := s.succeeded + (if raised then 0 else 1), failed := s.failed + (if raised then 1 else 0))
        else s.(phase := Delivering(batch, i + 1, 0))
    case AccountNext =>
      if !s.phase.Accounting? then s else
        var (batch, done) := (s.phase.batch, s.phase.done);
        if done < |batch|
        then s.(phase := Accounting(batch, done + 1), processedCount := s.processedCount + 1,
                tasksDone := s.tasksDone + 1, processed := s.processed + [batch[done]])
        else s.(phase := Idle)
  }

  // ---- what every interleaving keeps ----

  /** The events taken off the queue and not yet accounted for. */
  function InHand(phase: Phase): seq<Event> {
    match phase
    case Idle => []
    case Waiting => []
    case Opened(batch) => batch
    case Draining(batch, _) => batch
    case Delivering(batch, _, _) => batch
    case Accounting(batch, done) => if done <= |batch| then batch[done..] else []
  }

  function Plans(batches: seq<seq<Event>>): seq<Delivery> {
    if batches == [] then [] else Plans(batches[..|batches| - 1]) + Plan(batches[|batches| - 1])
  }

  function All(batches: seq<seq<Event>>): seq<Event> {
    if batches == [] then [] else All(batches[..|batches| - 1]) + batches[|batches| - 1]
  }

  /** How much of the current batch handler `h` has been given. */
  function GivenTo(phase: Phase, h: nat): nat {
    if !phase.Delivering? then 0 else phase.event + (if h < phase.handler then 1 else 0)
  }

  /** What the program cares for: starts and dies of tasks, and its own events. */
  predicate Wanted(e: Event) {
    || ((e.action == START || e.action == DIE) && e.taskId != "")
    || e.action == REBALANCE || e.action == RECONCILE || e.action == PREDICT_USAGE
  }

  function Admitted(es: seq<Event>): seq<Event> {
    if es == [] then [] else
      var n := |es| - 1;
      if Wanted(es[n]) then Admitted(es[..n]) + [es[n]] else Admitted(es[..n])
  }

  /** The events of one kind among those wanted. */
  predicate WantedAs(e: Event, kind: Kind) {
    match kind
    case StartKind => e.action == START && e.taskId != ""
    case DieKind => e.action == DIE && e.taskId != ""
    case InternalKind => e.action == REBALANCE || e.action == RECONCILE || e.action == PREDICT_USAGE
  }

  function AdmittedAs(es: seq<Event>, kind: Kind): seq<Event> {
    if es == [] then [] else
      var n := |es| - 1;
      if WantedAs(es[n], kind) then AdmittedAs(es[..n], kind) + [es[n]] else AdmittedAs(es[..n], kind)
  }

  lemma {:induction false} KindsOfAdmitted(es: seq<Event>, kind: Kind)
    ensures OfKind(Admitted(es), kind) == AdmittedAs(es, kind)
    decreases |es|
  {
    if es != [] {
      var n := |es| - 1;
      KindsOfAdmitted(es[..n], kind);
      var before := Admitted(es[..n]);
      assert (before + [es[n]])[..|before|] == before;
    }
  }

  ghost predicate Conserved(s: State) {
    && s.accepted == Admitted(s.offered)
    && s.accepted == s.processed + InHand(s.phase) + s.queue
    && s.processedCount == s.tasksDone == |s.processed|
    && (s.phase.Draining? ==> s.phase.left <= |s.queue|)
    && (s.phase.Accounting? ==> s.phase.done <= |s.phase.batch|)
    && forall e :: e in s.accepted ==> ShouldHandle(e)
  }

  ghost predicate Delivered(s: State) {
    && (s.phase.Delivering? ==>
          && s.batches != [] && s.batches[|s.batches| - 1] == s.phase.batch
          && s.phase.event <= |Plan(s.phase.batch)| && s.phase.handler <= |s.seen|
          && (s.phase.handler > 0 ==> s.phase.event < |Plan(s.phase.batch)|)
          && All(s.batches[..|s.batches| - 1]) == s.processed
          && forall h :: 0 <= h < |s.seen| ==>
               s.seen[h] == Plans(s.batches[..|s.batches| - 1]) + Plan(s.phase.batch)[..GivenTo(s.phase, h)])
    && (!s.phase.Delivering? ==>
          && All(s.batches) == s.processed + (if s.phase.Accounting? then InHand(s.phase) else [])
          && forall h :: 0 <= h < |s.seen| ==> s.seen[h] == Plans(s.batches))
  }

  lemma {:induction false} StepConserves(s: State, step: Step)
    requires Conserved(s)
    ensures Conserved(Next(s, step))
  {
    hide Conserved, Next;
    match step
    case Enqueue(e) => EnqueueConserves(s, e);
    case DequeueFirst => DequeueConserves(s, step);
    case DequeueMore => DequeueConserves(s, step);
    case AccountNext => AccountConserves(s);
    case _ => OthersConserve(s, step);
  }

  lemma EnqueueConserves(s: State, e: Event)
    requires Conserved(s)
    ensures Conserved(Next(s, Enqueue(e)))
  {
    assert (s.offered + [e])[..|s.offered|] == s.offered;
    assert s.processed + InHand(s.phase) + (s.queue + [e]) == s.processed + InHand(s.phase) + s.queue + [e];
  }

  lemma DequeueConserves(s: State, step: Step)
    requires Conserved(s) && (step.DequeueFirst? || step.DequeueMore?)
    ensures Conserved(Next(s, step))
  {
    hide Plan, ShouldHandle, Admitted;
    if s.queue != [] { MoveHead(s.processed, InHand(s.phase), s.queue); }
  }

  lemma AccountConserves(s: State)
    requires Conserved(s)
    ensures Conserved(Next(s, AccountNext))
  {
    hide Plan, ShouldHandle, Admitted;
    if s.phase.Accounting? && s.phase.done < |s.phase.batch| {
      var batch, done := s.phase.batch, s.phase.done;
      assert batch[done..] == [batch[done]] + batch[done + 1..];
      assert s.processed + [batch[done]] + batch[done + 1..] == s.processed + batch[done..];
    }
  }

  lemma OthersConserve(s: State, step: Step)
    requires Conserved(s)
    requires step.Stop? || step.Poll? || step.TimeOut? || step.ReadSize? || step.DeliverNext?
    ensures Conserved(Next(s, step))
  {
    hide Plan, ShouldHandle, Admitted;
    if s.phase.Delivering? { assert s.phase.batch[0..] == s.phase.batch; }
  }

  lemma MoveHead(a: seq<Event>, b: seq<Event>, c: seq<Event>)
    requires c != []
    ensures a + b + c == a + (b + [c[0]]) + c[1..]
  {
  }

  lemma {:induction false} StepDelivers(s: State, step: Step)
    requires Conserved(s) && Delivered(s)
    ensures Delivered(Next(s, step))
  {
    hide Plan, Conserved;
    match step
    case DequeueMore => BatchOpens(s);
    case DeliverNext(raised) => DeliveryAdvances(s, raised);
    case AccountNext => AccountingAdvances(s);
    case _ =>
  }

  lemma BatchOpens(s: State)
    requires Delivered(s)
    ensures Delivered(Next(s, DequeueMore))
  {
    hide Plan, Plans, All, GivenTo;
    if s.phase.Draining? && !(s.phase.left > 0 && s.queue != []) {
      var s' := Next(s, DequeueMore);
      var batches := s.batches + [s.phase.batch];
      assert batches[..|batches| - 1] == s.batches;
      forall h | 0 <= h < |s.seen| ensures GivenTo(s'.phase, h) == 0 && s'.seen[h] == Plans(s.batches) {
        GivenNothing(s'.phase, h);
      }
    }
  }

  lemma GivenNothing(phase: Phase, h: nat)
    requires phase.Delivering? && phase.event == 0 && phase.handler == 0
    ensures GivenTo(phase, h) == 0
  {
  }

  /** Whether or not the handler raises. */
  lemma {:induction false} DeliveryAdvances(s: State, raised: bool)
    requires Delivered(s)
    ensures Delivered(Next(s, DeliverNext(raised)))
  {
    hide Plan;
    if s.phase.Delivering? {
      var s', plan, i, h := Next(s, DeliverNext(raised)), Plan(s.phase.batch), s.phase.event, s.phase.handler;
      var before := s.batches[..|s.batches| - 1];
      if i >= |plan| {
        assert plan[..i] == plan;
        assert s.phase.batch[0..] == s.phase.batch;
      } else if h < |s.seen| {
        assert plan[..i + 1] == plan[..i] + [plan[i]];
      }
    }
  }

  lemma AccountingAdvances(s: State)
    requires Delivered(s)
    ensures Delivered(Next(s, AccountNext))
  {
    hide Plan, Plans, All, GivenTo;
    if s.phase.Accounting? && s.phase.done < |s.phase.batch| { NextInHand(s.processed, s.phase.batch, s.phase.done); }
  }

  lemma NextInHand(processed: seq<Event>, batch: seq<Event>, done: nat)
    requires done < |batch|
    ensures processed + batch[done..] == processed + [batch[done]] + batch[done + 1..]
  {
  }

  function TotalSeen(seen: seq<seq<Delivery>>): nat {
    if seen == [] then 0 else TotalSeen(seen[..|seen| - 1]) + |seen[|seen| - 1]|
  }

  lemma {:induction false} OneMoreSeen(seen: seq<seq<Delivery>>, h: nat, d: Delivery)
    requires h < |seen|
    ensures TotalSeen(seen[h := seen[h] + [d]]) == TotalSeen(seen) + 1
    decreases |seen|
  {
    var n := |seen| - 1;
    var seen' := seen[h := seen[h] + [d]];
    if h < n {
      OneMoreSeen(seen[..n], h, d);
      assert seen'[..n] == seen[..n][h := seen[h] + [d]];
    } else {
      assert seen'[..n] == seen[..n];
    }
  }

  lemma {:induction false} NothingSeen(seen: seq<seq<Delivery>>)
    requires forall h :: 0 <= h < |seen| ==> seen[h] == []
    ensures TotalSeen(seen) == 0
    decreases |seen|
  {
    if seen != [] { NothingSeen(seen[..|seen| - 1]); }
  }

  /** Every handler call is reported once, as a success or as a failure. */
  ghost predicate Reported(s: State) { s.succeeded + s.failed == TotalSeen(s.seen) }

  lemma StepReports(s: State, step: Step)
    requires Reported(s)
    ensures Reported(Next(s, step))
  {
    hide Plan, TotalSeen;
    if step.DeliverNext? && s.phase.Delivering? {
      var i, h := s.phase.event, s.phase.handler;
      if i < |Plan(s.phase.batch)| && h < |s.seen| {
        OneMoreSeen(s.seen, h, Plan(s.phase.batch)[i]);
      }
    }
  }

  /** Any interleaving of producers with the consumer, from an empty queue and `handlers` handlers. */
  ghost predicate IsRun(handlers: nat, states: seq<State>, steps: seq<Step>) {
    && |states| == |steps| + 1
    && states[0] == Initial(handlers)
    && forall i :: 0 <= i < |steps| ==> states[i + 1] == Next(states[i], steps[i])
  }

  lemma StepKeepsHandlers(s: State, step: Step)
    ensures |Next(s, step).seen| == |s.seen|
  {
  }

  lemma {:induction false} RunKeeps(handlers: nat, states: seq<State>, steps: seq<Step>, i: nat)
    requires IsRun(handlers, states, steps) && i < |states|
    ensures Conserved(states[i]) && Delivered(states[i]) && Reported(states[i]) && |states[i].seen| == handlers
    decreases i
  {
    hide Plan, Next;
    NothingSeen(Initial(handlers).seen);
    if i > 0 {
      RunKeeps(handlers, states, steps, i - 1);
      hide Conserved, Delivered, Reported;
      StepReports(states[i - 1], steps[i - 1]);
      StepKeepsHandlers(states[i - 1], steps[i - 1]);
      StepConserves(states[i - 1], steps[i - 1]);
      StepDelivers(states[i - 1], steps[i - 1]);
    }
  }

  // ---- exactly once ----

  /** The events of one kind that a delivery carries. */
  function Content(d: Delivery, kind: Kind): seq<Event> {
    match (d, kind)
    case (ContainerBatch(starts, _), StartKind) => starts
    case (ContainerBatch(_, dies), DieKind) => dies
    case (Internal(e), InternalKind) => [e]
    case _ => []
  }

  function Contents(ds: seq<Delivery>, kind: Kind): seq<Event> {
    if ds == [] then [] else Contents(ds[..|ds| - 1], kind) + Content(ds[|ds| - 1], kind)
  }

  lemma {:induction false} ContentsConcat(a: seq<Delivery>, b: seq<Delivery>, kind: Kind)
    ensures Contents(a + b, kind) == Contents(a, kind) + Contents(b, kind)
    decreases |b|
  {
    hide Content;
    if b == [] {
      assert a + b == a;
    } else {
      var n := |b| - 1;
      assert (a + b)[..|a + b| - 1] == a + b[..n];
      ContentsConcat(a, b[..n], kind);
    }
  }

  lemma {:induction false} OfKindConcat(a: seq<Event>, b: seq<Event>, kind: Kind)
    ensures OfKind(a + b, kind) == OfKind(a, kind) + OfKind(b, kind)
    decreases |b|
  {
    hide HasKind;
    if b == [] {
      assert a + b == a;
    } else {
      var n := |b| - 1;
      assert (a + b)[..|a + b| - 1] == a + b[..n];
      OfKindConcat(a, b[..n], kind);
    }
  }

  lemma {:induction false} SinglyContents(es: seq<Event>, kind: Kind)
    ensures Contents(Singly(es), kind) == if kind.InternalKind? then es else []
    decreases |es|
  {
    hide Contents, Content;
    if es == [] {
      NoContents(kind);
      assert Singly(es) == [];
    } else {
      var n := |es| - 1;
      SinglyContents(es[..n], kind);
      ContentsStep(Singly(es[..n]), Internal(es[n]), kind);
      assert Singly(es) == Singly(es[..n]) + [Internal(es[n])];
      assert es == es[..n] + [es[n]];
    }
  }

  lemma ContentsStep(ds: seq<Delivery>, d: Delivery, kind: Kind)
    ensures Contents(ds + [d], kind) == Contents(ds, kind) + Content(d, kind)
    ensures d.Internal? ==> Content(d, kind) == if kind.InternalKind? then [d.event] else []
  {
    assert (ds + [d])[..|ds|] == ds;
  }

  lemma PlanContents(batch: seq<Event>, kind: Kind)
    ensures Contents(Plan(batch), kind) == OfKind(batch, kind)
  {
    hide OfKind, Contents, Singly;
    var starts, dies, internals := Starts(batch), Dies(batch), Internals(batch);
    SinglyContents(internals, kind);
    HeadContents(starts, dies, kind);
    if starts + dies == [] {
      assert |starts| + |dies| == 0;
      assert [] + Singly(internals) == Singly(internals);
    } else {
      ContentsConcat([ContainerBatch(starts, dies)], Singly(internals), kind);
    }
  }

  lemma HeadContents(starts: seq<Event>, dies: seq<Event>, kind: Kind)
    ensures Contents([ContainerBatch(starts, dies)], kind) ==
            match kind case StartKind => starts case DieKind => dies case InternalKind => []
  {
    var head := [ContainerBatch(starts, dies)];
    assert head[..0] == [];
  }

  lemma {:induction false} PlansContents(batches: seq<seq<Event>>, kind: Kind)
    ensures Contents(Plans(batches), kind) == OfKind(All(batches), kind)
    decreases |batches|
  {
    hide Plan, Contents, OfKind;
    if batches == [] {
      NoContents(kind);
    } else {
      var n := |batches| - 1;
      PlansContents(batches[..n], kind);
      PlanContents(batches[n], kind);
      ContentsConcat(Plans(batches[..n]), Plan(batches[n]), kind);
      OfKindConcat(All(batches[..n]), batches[n], kind);
    }
  }

  lemma NoContents(kind: Kind)
    ensures Contents([], kind) == [] && OfKind([], kind) == []
  {
  }

  /**
    Conservation and exactly-once delivery, under any interleaving: at every point the accepted events are those
    processed, those in hand and those queued, in that order, and `task_done` has been called once per processed
    event; whenever the consumer is idle, every handler has been given every processed event exactly once, in queue
    order within its kind, and nothing else of that kind, even if handlers raise; and every call of a handler has
    been reported once.
   */
  lemma ExactlyOnce(handlers: nat, states: seq<State>, steps: seq<Step>, i: nat, h: nat, kind: Kind)
    requires IsRun(handlers, states, steps) && i < |states| && h < handlers
    ensures var s := states[i];
            && s.accepted == s.processed + InHand(s.phase) + s.queue
            && s.processedCount == s.tasksDone == |s.processed|
            && |s.seen| == handlers && s.succeeded + s.failed == TotalSeen(s.seen)
            && (s.phase.Idle? || s.phase.Waiting? ==> Contents(s.seen[h], kind) == OfKind(s.processed, kind))
  {
    hide Plan, Plans, All, Contents, OfKind, IsRun;
    RunKeeps(handlers, states, steps, i);
    PlansContents(states[i].batches, kind);
    assert states[i].processed + [] == states[i].processed;
  }

  /**
    Nothing wanted is lost and nothing else gets through: at every point of every run the accepted events are exactly
    the offered starts and dies that have a task id and the offered internal events, in order; and whenever the
    consumer is between batches and the queue is empty, every handler has been given exactly these, kind by kind.
   */
  lemma AllDelivered(handlers: nat, states: seq<State>, steps: seq<Step>, i: nat, h: nat, kind: Kind)
    requires IsRun(handlers, states, steps) && i < |states| && h < handlers
    ensures var s := states[i];
            && s.accepted == Admitted(s.offered)
            && |s.seen| == handlers
            && ((s.phase.Idle? || s.phase.Waiting?) && s.queue == [] ==>
                  Contents(s.seen[h], kind) == AdmittedAs(s.offered, kind))
  {
    hide Plan, Plans, All, Contents, OfKind, IsRun, Admitted, AdmittedAs;
    RunKeeps(handlers, states, steps, i);
    ExactlyOnce(handlers, states, steps, i, h, kind);
    KindsOfAdmitted(states[i].offered, kind);
    var s := states[i];
    if (s.phase.Idle? || s.phase.Waiting?) && s.queue == [] {
      assert s.processed + [] + [] == s.processed;
    }
  }

  /** Once it is stopped and between batches, the consumer takes no further event, whatever the producers do. */
  lemma {:induction false} StoppedForGood(handlers: nat, states: seq<State>, steps: seq<Step>, i: nat, j: nat)
    requires IsRun(handlers, states, steps) && i <= j < |states|
    requires states[i].stopped && states[i].phase.Idle?
    ensures states[j].stopped && states[j].phase.Idle?
    ensures states[j].seen == states[i].seen && states[j].processed == states[i].processed
    decreases j
  {
    hide Plan;
    if i < j {
      StoppedForGood(handlers, states, steps, i, j - 1);
      assert states[j] == Next(states[j - 1], steps[j - 1]);
    }
  }

  /** The deliveries of a batch are its container events, together and first, and its internal events, alone. */
  lemma EveryKindIsDelivered(batch: seq<Event>)
    requires forall e :: e in batch ==> ShouldHandle(e)
    ensures |Starts(batch)| + |Dies(batch)| + |Internals(batch)| == |batch|
    ensures forall k :: 0 < k < |Plan(batch)| ==> Plan(batch)[k].Internal?
    ensures batch != [] ==> (Plan(batch)[0].ContainerBatch? <==> exists e :: e in batch && IsContainer(e))
  {
    KindsCount(batch);
    if Starts(batch) + Dies(batch) == [] { assert |Starts(batch)| + |Dies(batch)| == 0; }
  }

  lemma {:induction false} KindsCount(batch: seq<Event>)
    requires forall e :: e in batch ==> ShouldHandle(e)
    ensures |Starts(batch)| + |Dies(batch)| + |Internals(batch)| == |batch|
    ensures (exists e :: e in batch && IsContainer(e)) <==> |Starts(batch)| + |Dies(batch)| > 0
    decreases |batch|
  {
    if batch != [] {
      var n := |batch| - 1;
      assert batch == batch[..n] + [batch[n]];
      assert forall e :: e in batch <==> e in batch[..n] || e == batch[n];
      assert ShouldHandle(batch[n]);
      KindsCount(batch[..n]);
    }
  }
}
