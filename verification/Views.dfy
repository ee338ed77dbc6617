/** The ways the code reads a placement: per workload, per thread, and as counts. */
module Views {
  import opened Collections
  import opened Topology
  import opened Processor

  /** The workloads claimed on any of `ts`, each with its threads in the order of `ts`. */
  function Inverted(ts: seq<nat>, pl: Placement): map<Id, seq<nat>> {
    map w | w in IdsOn(ts, pl) :: Keep(ts, HeldBy(pl, w))
  }

  /** `Cpu.get_workload_ids_to_thread_ids`. */
  method WorkloadIdsToThreadIds(cpu: Cpu) returns (m: map<Id, seq<nat>>)
    requires cpu.Valid()
    ensures m == Inverted(Threads(cpu.shape), cpu.State()) && m.Keys == WorkloadsOn(cpu.State())
  {
    hide WellFormed, Threads, Inverted, Appended, ToSet;
    cpu.ValidKeys();
    m := map[];
    var ts := Threads(cpu.shape);
    InvertedNone(cpu.State());
    for i := 0 to |ts|
      invariant m == Inverted(ts[..i], cpu.State())
    {
      PrefixSet(ts, i);
      AppendNone(m, ts[i]);
      if cpu.threads[ts[i]].IsClaimed() {
        m := AppendTo(m, cpu.threads[ts[i]].workloadIds, ts[i]);
      }
      InvertedStep(ts, i, cpu.State());
    }
    WholePrefix(ts);
    AllIds(ts, cpu.State());
    InvertedKeys(ts, cpu.State());
  }

  lemma InvertedKeys(ts: seq<nat>, pl: Placement)
    ensures Inverted(ts, pl).Keys == IdsOn(ts, pl)
  {
  }

  /** `res[w] += [t]` for every workload of one thread. */
  method AppendTo(m: map<Id, seq<nat>>, ws: set<Id>, t: nat) returns (r: map<Id, seq<nat>>)
    ensures r == Appended(m, ws, t)
  {
    hide Appended;
    r := m;
    var todo := ws;
    AppendNone(m, t);
    assert ws - todo == {};
    while todo != {}
      invariant todo <= ws && r == Appended(m, ws - todo, t)
      decreases |todo|
    {
      var w :| w in todo;
      AppendOne(m, ws - todo, w, t);
      assert ws - (todo - {w}) == ws - todo + {w};
      if w in r {
        r := r[w := r[w] + [t]];
      } else {
        r := r[w := [t]];
      }
      todo := todo - {w};
    }
    assert ws - todo == ws;
  }

  function Appended(m: map<Id, seq<nat>>, ws: set<Id>, t: nat): map<Id, seq<nat>> {
    map w | w in m.Keys + ws :: if w !in ws then m[w] else if w in m then m[w] + [t] else [t]
  }

  lemma AppendNone(m: map<Id, seq<nat>>, t: nat)
    ensures Appended(m, {}, t) == m
  {
  }

  lemma AppendOne(m: map<Id, seq<nat>>, done: set<Id>, w: Id, t: nat)
    requires w !in done
    ensures var r := Appended(m, done, t);
            Appended(m, done + {w}, t) == r[w := if w in r then r[w] + [t] else [t]]
  {
  }

  lemma KeepStep(ts: seq<nat>, i: nat, keep: set<nat>)
    requires i < |ts|
    ensures Keep(ts[..i + 1], keep) == Keep(ts[..i], keep) + (if ts[i] in keep then [ts[i]] else [])
  {
    assert ts[..i + 1] == ts[..i] + [ts[i]];
    KeepConcat(ts[..i], [ts[i]], keep);
  }

  lemma NoMembers(ts: seq<nat>)
    requires ToSet(ts) == {}
    ensures ts == []
  {
    if ts != [] { PrefixSet(ts, 0); }
  }

  lemma KeepNone(ts: seq<nat>, pl: Placement, w: Id)
    requires w !in IdsOn(ts, pl)
    ensures Keep(ts, HeldBy(pl, w)) == []
  {
    KeepFacts(ts, HeldBy(pl, w));
    assert forall t :: t in ts ==> t !in HeldBy(pl, w);
    assert ToSet(Keep(ts, HeldBy(pl, w))) == {};
    NoMembers(Keep(ts, HeldBy(pl, w)));
  }

  lemma InvertedStep(ts: seq<nat>, i: nat, pl: Placement)
    requires i < |ts| && ts[i] in pl
    ensures Inverted(ts[..i + 1], pl) == Appended(Inverted(ts[..i], pl), pl[ts[i]], ts[i])
  {
    hide Keep, HeldBy;
    assert ts[..i + 1] == ts[..i] + [ts[i]];
    var after, before := Inverted(ts[..i + 1], pl), Inverted(ts[..i], pl);
    assert after.Keys == before.Keys + pl[ts[i]];
    forall w | w in after.Keys ensures after[w] == Appended(before, pl[ts[i]], ts[i])[w] {
      KeepStep(ts, i, HeldBy(pl, w));
      InHeldBy(pl, ts[i], w);
      if w !in before { KeepNone(ts[..i], pl, w); }
    }
  }

  lemma InvertedNone(pl: Placement)
    ensures Inverted([], pl) == map[]
  {
  }

  lemma InHeldBy(pl: Placement, t: nat, w: Id)
    requires t in pl
    ensures t in HeldBy(pl, w) <==> w in pl[t]
  {
  }

  lemma AllIds(ts: seq<nat>, pl: Placement)
    requires pl.Keys <= ToSet(ts)
    ensures IdsOn(ts, pl) == WorkloadsOn(pl)
  {
    forall w | w in WorkloadsOn(pl) ensures w in IdsOn(ts, pl) {
      var t :| t in pl && w in pl[t];
      assert t in ToSet(ts);
    }
  }
}
