/** The mutable processor: threads that carry workload ids, reached through the tree of packages and cores. */
module Processor {
  import opened Collections
  import opened Bins
  import opened Topology
  import opened GreedySpec

  class Thread {
    const id: nat
    var workloadIds: set<Id>

    constructor (id: nat)
      ensures this.id == id && workloadIds == {}
    {
      this.id := id;
      workloadIds := {};
    }

    method Claim(w: Id)
      modifies this
      ensures workloadIds == old(workloadIds) + {w}
    {
      workloadIds := workloadIds + {w};
    }

    method Free(w: Id)
      modifies this
      ensures workloadIds == old(workloadIds) - {w}
    {
      if w in workloadIds {
        workloadIds := workloadIds - {w};
      }
    }

    method Clear()
      modifies this
      ensures workloadIds == {}
    {
      workloadIds := {};
    }

    predicate IsClaimed()
      reads this
    {
      workloadIds != {}
    }
  }

  /** The leaves of `shape` are thread ids; `threads` holds the thread object behind each of them. */
  class Cpu {
    const shape: Shape
    const threads: map<nat, Thread>
    ghost const objects: set<Thread>

    ghost predicate Valid() {
      && WellFormed(shape)
      && threads.Keys == ToSet(Threads(shape))
      && (forall t :: t in threads ==> threads[t].id == t)
      && (forall t :: t in threads ==> threads[t] in objects)
    }

    /** The workloads on every thread. */
    function State(): (pl: Placement)
      requires Valid()
      reads objects
      ensures pl.Keys == threads.Keys
    {
      map t | t in threads :: threads[t].workloadIds
    }

    lemma ValidKeys()
      requires Valid()
      ensures WellFormed(shape) && |shape| > 0 && threads.Keys == ToSet(Threads(shape))
    {
    }

    /** A processor with the given tree and claims; `AllocateRequest` and the manager make their deep copies so. */
    constructor (shape: Shape, pl: Placement)
      requires WellFormed(shape) && Covers(shape, pl)
      ensures Valid() && this.shape == shape && State() == pl
      ensures fresh(objects)
    {
      var table := NewThreads(Threads(shape), pl);
      hide WellFormed, ToSet, Threads;
      this.shape := shape;
      this.threads := table;
      this.objects := table.Values;
    }

    /** A thread object for every id, with the claims it is to have. */
    static method NewThreads(ids: seq<nat>, pl: Placement) returns (table: map<nat, Thread>)
      requires ToSet(ids) <= pl.Keys
      ensures table.Keys == ToSet(ids)
      ensures forall t :: t in table ==> fresh(table[t]) && table[t].id == t && table[t].workloadIds == pl[t]
    {
      table := map[];
      assert ToSet(ids[..0]) == {};
      hide ToSet;
      for i := 0 to |ids|
        invariant table.Keys == ToSet(ids[..i]) <= pl.Keys
        invariant forall t :: t in table ==> fresh(table[t]) && table[t].id == t && table[t].workloadIds == pl[t]
      {
        PrefixSet(ids, i);
        var t := new Thread(ids[i]);
        t.workloadIds := pl[ids[i]];
        table := table[ids[i] := t];
      }
      WholePrefix(ids);
    }

    method DeepCopy() returns (copy: Cpu)
      requires Valid()
      ensures fresh(copy) && fresh(copy.objects)
      ensures copy.Valid() && copy.shape == shape && copy.State() == State()
    {
      copy := new Cpu(shape, State());
    }

    /** Some foreign code leaves the threads with these claims. */
    method Overwrite(pl: Placement)
      requires Valid() && Covers(shape, pl)
      modifies objects
      ensures State() == pl
    {
      var ids := Threads(shape);
      assert ToSet(ids[..0]) == {};
      hide WellFormed, ToSet, Threads;
      for i := 0 to |ids|
        invariant forall t :: t in ToSet(ids[..i]) && t in threads ==> threads[t].workloadIds == pl[t]
      {
        PrefixSet(ids, i);
        threads[ids[i]].workloadIds := pl[ids[i]];
      }
      WholePrefix(ids);
    }

    method Clear()
      requires Valid()
      modifies objects
      ensures State() == Cleared(old(State()))
    {
      var ids := Threads(shape);
      assert ToSet(ids[..0]) == {};
      hide WellFormed, ToSet, Threads;
      for i := 0 to |ids|
        invariant forall t :: t in threads ==>
          threads[t].workloadIds == if t in ToSet(ids[..i]) then {} else old(threads[t].workloadIds)
      {
        PrefixSet(ids, i);
        threads[ids[i]].Clear();
      }
      WholePrefix(ids);
    }

    method ClaimThreads(ts: seq<nat>, w: Id)
      requires Valid() && ToSet(ts) <= threads.Keys
      modifies objects
      ensures State() == Claim(old(State()), ToSet(ts), w)
    {
      hide WellFormed, Threads;
      assert Claim(State(), ToSet(ts[..0]), w) == State();
      for i := 0 to |ts|
        invariant State() == Claim(old(State()), ToSet(ts[..i]), w)
      {
        PrefixSet(ts, i);
        ghost var before := State();
        threads[ts[i]].Claim(w);
        assert State() == Claim(before, {ts[i]}, w);
        ClaimTwice(old(State()), ToSet(ts[..i]), {ts[i]}, w);
      }
      WholePrefix(ts);
    }

    lemma RoomAt(shape: Shape, e: set<nat>, i: nat)
      requires i < |shape|
      ensures PackageRoom(shape, e)[i] == |Keep(shape[i].Threads(), e)|
    {
    }

    /** First package, in order, with the most empty threads. */
    method EmptiestPackage() returns (p: nat)
      requires Valid()
      ensures p == Largest(PackageRoom(shape, EmptySet(State())))
    {
      hide *;
      ValidKeys();
      p := 0;
      ghost var room := PackageRoom(shape, EmptySet(State()));
      var most := |Keep(shape[0].Threads(), EmptySet(State()))|;
      RoomAt(shape, EmptySet(State()), 0);
      LargestFirst(room);
      for i := 1 to |shape|
        invariant p < i && most == room[p]
        invariant p == Largest(room[..i])
      {
        var here := |Keep(shape[i].Threads(), EmptySet(State()))|;
        RoomAt(shape, EmptySet(State()), i);
        LargestStep(room, i);
        if here > most {
          p, most := i, here;
        }
      }
      WholePrefix(room);
    }

    /** First core of the package, in order, with the most empty threads. */
    method EmptiestCore(pkg: Package) returns (c: nat)
      requires Valid() && |pkg.cores| > 0
      ensures c == Largest(CoreRoom(pkg, EmptySet(State())))
    {
      hide WellFormed, Keep, EmptySet, Largest;
      c := 0;
      ghost var room := CoreRoom(pkg, EmptySet(State()));
      var most := |Keep(pkg.cores[0].threads, EmptySet(State()))|;
      for i := 1 to |pkg.cores|
        invariant c < i && most == room[c]
        invariant c == Largest(room[..i])
      {
        var here := |Keep(pkg.cores[i].threads, EmptySet(State()))|;
        LargestStep(room, i);
        if here > most {
          c, most := i, here;
        }
      }
      WholePrefix(room);
    }
  }
}
