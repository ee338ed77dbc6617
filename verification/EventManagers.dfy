/**
  One turn of the event manager's processing loop, as it runs while no producer interferes. Every statement that
  touches the queue, a handler or the counters is one step of the transition system, so what holds of all
  interleavings of those steps holds of the loop.
 */
module EventManagers {
  import opened Collections
  import opened EventQueue

  function Fold(s: State, steps: seq<Step>): State {
    if steps == [] then s else Next(Fold(s, steps[..|steps| - 1]), steps[|steps| - 1])
  }

  ghost predicate Reaches(s: State, s': State) { exists steps :: Fold(s, steps) == s' }

  lemma ReachesItself(s: State)
    ensures Reaches(s, s)
  {
    assert Fold(s, []) == s;
  }

  lemma ReachesNext(s: State, s': State, step: Step)
    requires Reaches(s, s')
    ensures Reaches(s, Next(s', step))
  {
    var steps :| Fold(s, steps) == s';
    assert (steps + [step])[..|steps|] == steps;
    assert Fold(s, steps + [step]) == Next(s', step);
  }

  /** The steps of the consumer up to a full batch, and those that account for one. */
  lemma QueueSteps(s: State)
    ensures s.phase.Idle? && !s.stopped ==> Next(s, Poll) == s.(phase := Waiting)
    ensures s.phase.Waiting? && s.queue == [] ==> Next(s, TimeOut) == s.(phase := Idle)
    ensures s.phase.Waiting? && s.queue != [] ==>
              Next(s, DequeueFirst) == s.(queue := s.queue[1..], phase := Opened([s.queue[0]]))
    ensures s.phase.Opened? ==> Next(s, ReadSize) == s.(phase := Draining(s.phase.batch, |s.queue|))
    ensures s.phase.Draining? && s.phase.left > 0 && s.queue != [] ==>
              var more := Draining(s.phase.batch + [s.queue[0]], s.phase.left - 1);
              Next(s, DequeueMore) == s.(queue := s.queue[1..], phase := more)
  {
  }

  lemma AccountSteps(s: State)
    requires s.phase.Accounting?
    ensures s.phase.done < |s.phase.batch| ==>
              var phase, e := Accounting(s.phase.batch, s.phase.done + 1), s.phase.batch[s.phase.done];
              Next(s, AccountNext) == s.(phase := phase, processedCount := s.processedCount + 1,
                                         tasksDone := s.tasksDone + 1, processed := s.processed + [e])
    ensures s.phase.done >= |s.phase.batch| ==> Next(s, AccountNext) == s.(phase := Idle)
  {
  }

  class EventManager {
    var queue: seq<Event>
    var stopped: bool
    var processedCount: nat
    var tasksDone: nat
    var succeeded: nat
    var failed: nat
    var seen: seq<seq<Delivery>>
    ghost var offered: seq<Event>
    ghost var accepted: seq<Event>
    ghost var processed: seq<Event>
    ghost var batches: seq<seq<Event>>

    /** The state of the transition system when the consumer is at `phase`. */
    ghost function Abs(phase: Phase): State
      reads this
    {
      State(queue, stopped, phase, processedCount, tasksDone, succeeded, failed,
            offered, accepted, processed, batches, seen)
    }

    constructor (handlers: nat)
      ensures Abs(Idle) == Initial(handlers)
    {
      queue, stopped, processedCount, tasksDone, succeeded, failed := [], false, 0, 0, 0, 0;
      seen := seq(handlers, i => []);
      offered, accepted, processed, batches := [], [], [], [];
    }

    /** Starts and dies with a task id, and the three internal events, join the queue; any other is dropped. */
    method PutEvent(e: Event)
      modifies this
      ensures Abs(Idle) == Next(old(Abs(Idle)), Enqueue(e))
      ensures var wanted :=
                || ((e.action == START || e.action == DIE) && e.taskId != "")
                || e.action == REBALANCE || e.action == RECONCILE || e.action == PREDICT_USAGE;
              queue == if wanted then old(queue) + [e] else old(queue)
    {
      offered := offered + [e];
      if ShouldHandle(e) {
        queue := queue + [e];
        accepted := accepted + [e];
      }
    }

    method StopProcessing()
      modifies this
      ensures Abs(Idle) == Next(old(Abs(Idle)), Stop)
    {
      stopped := true;
    }

    method DequeueEvent() returns (e: Option<Event>)
      modifies this`queue
      ensures if old(queue) == [] then e == None && queue == []
              else e == Some(old(queue)[0]) && queue == old(queue)[1..]
    {
      if queue == [] {
        return None;
      }
      e := Some(queue[0]);
      queue := queue[1..];
    }

    /** `__get_batch`: one event, then as many more as the queue held at that moment. */
    method GetBatch() returns (batch: seq<Event>)
      requires !stopped
      modifies this`queue
      ensures batch == old(queue) && queue == []
      ensures Reaches(old(Abs(Idle)), if batch == [] then Abs(Idle) else Abs(Draining(batch, 0)))
    {
      hide Next, Reaches;
      ghost var s0 := Abs(Idle);
      ghost var waiting := Abs(Waiting);
      QueueSteps(s0);
      QueueSteps(waiting);
      ReachesItself(s0);
      ReachesNext(s0, s0, Poll);
      var event := DequeueEvent();
      if event.None? {
        ReachesNext(s0, waiting, TimeOut);
        return [];
      }
      batch := [event.value];
      ReachesNext(s0, waiting, DequeueFirst);
      QueueSteps(Abs(Opened(batch)));
      ReachesNext(s0, Abs(Opened(batch)), ReadSize);
      var n := |queue|;
      for k := 0 to n
        invariant |queue| == n - k && batch + queue == old(queue)
        invariant unchanged(this`stopped) && Reaches(s0, Abs(Draining(batch, n - k)))
      {
        ghost var s := Abs(Draining(batch, n - k));
        QueueSteps(s);
        event := DequeueEvent();
        if event.None? {
          break;
        }
        batch := batch + [event.value];
        ReachesNext(s0, s, DequeueMore);
      }
    }

    /** `__get_container_batch_event`. */
    method ContainerBatchEvent(events: seq<Event>) returns (d: Delivery)
      ensures d == ContainerBatch(Starts(events), Dies(events))
    {
      var starts: seq<Event>, dies: seq<Event> := [], [];
      for i := 0 to |events|
        invariant starts == Starts(events[..i]) && dies == Dies(events[..i])
      {
        assert events[..i + 1][..i] == events[..i];
        if events[i].action.START? {
          starts := starts + [events[i]];
        }
        if events[i].action.DIE? {
          dies := dies + [events[i]];
        }
      }
      WholePrefix(events);
      d := ContainerBatch(starts, dies);
    }

    /**
      One turn of `__process_events`; an empty batch only means that the wait for an event timed out. `raises` says
      which handler raises at which event of the turn.
     */
    method ProcessOnce(raises: set<(nat, nat)>)
      requires !stopped && forall e :: e in queue ==> ShouldHandle(e)
      modifies this
      ensures Reaches(old(Abs(Idle)), Abs(Idle))
      ensures queue == [] && stopped == old(stopped) && accepted == old(accepted)
      ensures processed == old(processed) + old(queue)
      ensures tasksDone == old(tasksDone) + |old(queue)| && processedCount == old(processedCount) + |old(queue)|
      ensures |seen| == |old(seen)| && forall h :: 0 <= h < |seen| ==> seen[h] == old(seen)[h] + Plan(old(queue))
      ensures succeeded + failed == old(succeeded) + old(failed) + |Plan(old(queue))| * |seen|
    {
      hide Plan, Next;
      ghost var s0 := Abs(Idle);
      var batch := GetBatch();
      if batch == [] {
        NothingPlanned();
        return;
      }
      var container := ContainerBatchEvent(batch);
      var head := if container.starts + container.dies == [] then [] else [container];
      var events := head + Singly(Internals(batch));
      PlanUnfolds(batch);
      DeliverAll(s0, batch, events, raises);
      Account(s0, batch);
    }

    lemma NothingPlanned()
      ensures Plan([]) == []
    {
    }

    lemma PlanUnfolds(batch: seq<Event>)
      ensures var head := if Starts(batch) + Dies(batch) == [] then []
                          else [ContainerBatch(Starts(batch), Dies(batch))];
              Plan(batch) == head + Singly(Internals(batch))
    {
    }

    /** The nested loops: every event to every handler, whether or not handlers raise. */
    method DeliverAll(ghost s0: State, batch: seq<Event>, events: seq<Delivery>, raises: set<(nat, nat)>)
      requires events == Plan(batch) && Reaches(s0, Abs(Draining(batch, 0)))
      modifies this`seen, this`batches, this`succeeded, this`failed
      ensures Reaches(s0, Abs(Accounting(batch, 0)))
      ensures |seen| == |old(seen)| && forall h :: 0 <= h < |seen| ==> seen[h] == old(seen)[h] + events
      ensures succeeded + failed == old(succeeded) + old(failed) + |events| * |seen|
    {
      hide Plan, Reaches;
      ReachesNext(s0, Abs(Draining(batch, 0)), DequeueMore);
      batches := batches + [batch];
      for i := 0 to |events|
        invariant |seen| == |old(seen)| && Reaches(s0, Abs(Delivering(batch, i, 0)))
        invariant forall h :: 0 <= h < |seen| ==> seen[h] == old(seen)[h] + events[..i]
        invariant succeeded + failed == old(succeeded) + old(failed) + i * |seen|
      {
        assert events[..i + 1] == events[..i] + [events[i]];
        DeliverOne(s0, batch, i, events[i], raises);
        assert (i + 1) * |seen| == i * |seen| + |seen|;
      }
      ReachesNext(s0, Abs(Delivering(batch, |events|, 0)), DeliverNext(false));
      WholePrefix(events);
    }

    method DeliverOne(ghost s0: State, batch: seq<Event>, i: nat, event: Delivery, raises: set<(nat, nat)>)
      requires i < |Plan(batch)| && event == Plan(batch)[i] && Reaches(s0, Abs(Delivering(batch, i, 0)))
      modifies this`seen, this`succeeded, this`failed
      ensures Reaches(s0, Abs(Delivering(batch, i + 1, 0)))
      ensures |seen| == |old(seen)| && forall h :: 0 <= h < |seen| ==> seen[h] == old(seen)[h] + [event]
      ensures succeeded + failed == old(succeeded) + old(failed) + |seen|
    {
      hide Plan, Reaches;
      for h := 0 to |seen|
        invariant |seen| == |old(seen)| && Reaches(s0, Abs(Delivering(batch, i, h)))
        invariant forall g :: h <= g < |seen| ==> seen[g] == old(seen)[g]
        invariant forall g :: 0 <= g < h ==> seen[g] == old(seen)[g] + [event]
        invariant succeeded + failed == old(succeeded) + old(failed) + h
      {
        ReachesNext(s0, Abs(Delivering(batch, i, h)), DeliverNext((i, h) in raises));
        seen := seen[h := seen[h] + [event]];
        if (i, h) in raises {
          failed := failed + 1;
        } else {
          succeeded := succeeded + 1;
        }
      }
      ReachesNext(s0, Abs(Delivering(batch, i, |seen|)), DeliverNext(false));
    }

    /** The last loop: count the event and tell the queue, once per event of the batch. */
    method Account(ghost s0: State, batch: seq<Event>)
      requires Reaches(s0, Abs(Accounting(batch, 0)))
      modifies this`processedCount, this`tasksDone, this`processed
      ensures Reaches(s0, Abs(Idle))
      ensures processed == old(processed) + batch
      ensures tasksDone == old(tasksDone) + |batch| && processedCount == old(processedCount) + |batch|
    {
      hide Next, Reaches;
      WholePrefix(batch);
      for k := 0 to |batch|
        invariant Reaches(s0, Abs(Accounting(batch, k)))
        invariant processed == old(processed) + batch[..k]
        invariant tasksDone == old(tasksDone) + k && processedCount == old(processedCount) + k
      {
        AccountSteps(Abs(Accounting(batch, k)));
        ReachesNext(s0, Abs(Accounting(batch, k)), AccountNext);
        assert batch[..k + 1] == batch[..k] + [batch[k]];
        processedCount := processedCount + 1;
        tasksDone := tasksDone + 1;
        processed := processed + [batch[k]];
      }
      AccountSteps(Abs(Accounting(batch, |batch|)));
      ReachesNext(s0, Abs(Accounting(batch, |batch|)), AccountNext);
    }
  }
}
