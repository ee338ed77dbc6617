/** The naive allocator as it runs, with `random.shuffle` as any permutation. */
module NaiveAllocator {
  import opened Collections
  import opened Topology
  import opened GreedyPlacement
  import opened NaivePlacement
  import opened Processor
  import opened Views

  /** Any permutation: every swap partner is left open. */
  method Shuffle(s: seq<nat>) returns (r: seq<nat>)
    ensures multiset(r) == multiset(s)
  {
    r := s;
    var i := |s| - 1;
    while i > 0
      invariant |r| == |s| && i < |s|
      invariant multiset(r) == multiset(s)
    {
      var j :| 0 <= j <= i;
      r := r[i := r[j]][j := r[i]];
      i := i - 1;
    }
  }

  lemma PermutationFacts(s: seq<nat>, r: seq<nat>)
    requires NoDup(s) && multiset(r) == multiset(s)
    ensures NoDup(r) && ToSet(r) == ToSet(s) && |r| == |s|
  {
    assert |r| == |multiset(r)| && |s| == |multiset(s)|;
    forall x ensures x in r <==> x in s {
      assert x in r <==> x in multiset(r);
    }
    assert ToSet(r) == ToSet(s);
    NoDupCard(s);
    CardNoDup(r);
  }

  /** `_get_assign_threads`: empty threads if there are enough, otherwise all of them and some claimed ones. */
  method AssignThreads(cpu: Cpu, count: nat) returns (chosen: seq<nat>)
    requires cpu.Valid()
    ensures Fits(cpu.State(), count, ToSet(chosen))
    ensures var empty := EmptySet(cpu.State());
            if count <= |empty| then ToSet(chosen) <= empty && |ToSet(chosen)| == count
            else empty <= ToSet(chosen) && |ToSet(chosen)| == Min(count, |Threads(cpu.shape)|)
  {
    hide Fits, WellFormed, EmptySet, ClaimedSet, Keep, Threads;
    ghost var pl := cpu.State();
    cpu.ValidKeys();
    var ids := Threads(cpu.shape);
    EmptyAndClaimed(ids, pl);
    var empty := Keep(ids, EmptySet(cpu.State()));
    if |empty| >= count {
      var shuffled := Shuffle(empty);
      PermutationFacts(empty, shuffled);
      chosen := shuffled[..count];
      PrefixFits(shuffled, count);
    } else {
      var claimed := Keep(ids, ClaimedSet(cpu.State()));
      var shuffled := Shuffle(claimed);
      PermutationFacts(claimed, shuffled);
      var more := Min(count - |empty|, |claimed|);
      PrefixFits(shuffled, more);
      chosen := empty + shuffled[..more];
      EmptyAndSome(empty, shuffled[..more]);
    }
    EmptyFirstFits(ids, pl, count, ToSet(chosen));
  }

  lemma EmptyAndSome(empty: seq<nat>, some: seq<nat>)
    requires NoDup(empty) && NoDup(some) && ToSet(empty) !! ToSet(some)
    ensures ToSet(empty + some) == ToSet(empty) + ToSet(some)
    ensures |ToSet(empty + some)| == |empty| + |some|
  {
    ToSetConcat(empty, some);
    NoDupCard(empty);
    NoDupCard(some);
    UnionCard(ToSet(empty), ToSet(some));
  }

  lemma EmptyFirstFits(ids: seq<nat>, pl: Placement, count: nat, chosen: set<nat>)
    requires NoDup(ids) && pl.Keys == ToSet(ids) && chosen <= pl.Keys
    requires if count <= |EmptySet(pl)| then chosen <= EmptySet(pl) && |chosen| == count
             else EmptySet(pl) <= chosen && |chosen| == Min(count, |ids|)
    ensures Fits(pl, count, chosen)
  {
    NoDupCard(ids);
    assert |pl| == |pl.Keys|;
    SubsetCard(EmptySet(pl), pl.Keys);
  }

  lemma PrefixFits(s: seq<nat>, n: nat)
    requires NoDup(s) && n <= |s|
    ensures NoDup(s[..n]) && ToSet(s[..n]) <= ToSet(s) && |ToSet(s[..n])| == n
  {
    NoDupCard(s[..n]);
  }

  lemma EmptyAndClaimed(ids: seq<nat>, pl: Placement)
    requires NoDup(ids) && pl.Keys == ToSet(ids)
    ensures var empty, claimed := Keep(ids, EmptySet(pl)), Keep(ids, ClaimedSet(pl));
            && NoDup(empty) && ToSet(empty) == EmptySet(pl) && |empty| == |EmptySet(pl)|
            && NoDup(claimed) && ToSet(claimed) == ClaimedSet(pl)
            && |empty| + |claimed| == |ids| && ToSet(empty) !! ToSet(claimed)
            && ToSet(empty) + ToSet(claimed) == pl.Keys
  {
    KeepFacts(ids, EmptySet(pl));
    KeepFacts(ids, ClaimedSet(pl));
    assert ToSet(ids) * EmptySet(pl) == EmptySet(pl);
    assert ToSet(ids) * ClaimedSet(pl) == ClaimedSet(pl);
    assert EmptySet(pl) + ClaimedSet(pl) == pl.Keys;
    UnionCard(EmptySet(pl), ClaimedSet(pl));
    NoDupCard(ids);
  }

  /** Whatever a thread carries that the request does not mention is freed. */
  method FreeUnrequested(cpu: Cpu, ids: set<Id>)
    requires cpu.Valid()
    modifies cpu.objects
    ensures cpu.State() == Purge(old(cpu.State()), ids)
  {
    cpu.ValidKeys();
    var ts := Threads(cpu.shape);
    assert ToSet(ts[..0]) == {};
    hide WellFormed, ToSet, Threads;
    for i := 0 to |ts|
      invariant forall t :: t in cpu.threads ==>
        var was := old(cpu.threads[t].workloadIds);
        cpu.threads[t].workloadIds == if t in ToSet(ts[..i]) then was * ids else was
    {
      PrefixSet(ts, i);
      FreeFrom(cpu.threads[ts[i]], cpu.threads[ts[i]].workloadIds - ids);
    }
    WholePrefix(ts);
  }

  method FreeFrom(thread: Thread, gone: set<Id>)
    modifies thread
    ensures thread.workloadIds == old(thread.workloadIds) - gone
  {
    var todo := gone;
    while todo != {}
      invariant todo <= gone && thread.workloadIds == old(thread.workloadIds) - (gone - todo)
      decreases |todo|
    {
      var w :| w in todo;
      thread.Free(w);
      todo := todo - {w};
    }
  }

  method Isolate(cpu: Cpu, ws: seq<Workload>)
    requires cpu.Valid()
    modifies cpu.objects
    ensures NaiveMay(old(cpu.State()), ws, cpu.State())
  {
    FreeUnrequested(cpu, Ids(ws));
    ghost var pl0 := cpu.State();
    var isolated := WorkloadIdsToThreadIds(cpu);
    ghost var choices: seq<set<nat>> := [];
    hide Purge, WellFormed, Threads, Fits, PlaceChoices, ChoicesFit;
    NoChoices(pl0);
    for i := 0 to |ws|
      invariant |choices| == i && ChoicesFit(pl0, ws[..i], choices)
      invariant cpu.State() == PlaceChoices(pl0, ws[..i], choices)
    {
      ghost var chosen := Serve(cpu, ws[i], ws[i].id in isolated);
      MoreChoices(pl0, ws, i, choices, chosen);
      choices := choices + [chosen];
    }
    WholePrefix(ws);
  }

  /** A workload found isolated is left alone, any other claims the threads chosen for it. */
  method Serve(cpu: Cpu, w: Workload, isolated: bool) returns (ghost chosen: set<nat>)
    requires cpu.Valid()
    modifies cpu.objects
    ensures cpu.State() == Claim(old(cpu.State()), chosen, w.id)
    ensures if isolated then chosen == {} else Fits(old(cpu.State()), w.count, chosen)
  {
    hide WellFormed, Fits;
    chosen := {};
    if isolated {
      ClaimNothing(cpu.State(), w.id);
    } else {
      var ts := AssignThreads(cpu, w.count);
      chosen := ToSet(ts);
      FitsInCpu(cpu.State(), w.count, chosen);
      cpu.ClaimThreads(ts, w.id);
    }
  }

  lemma NoChoices(pl: Placement)
    ensures ChoicesFit(pl, [], []) && PlaceChoices(pl, [], []) == pl
  {
  }

  lemma FitsInCpu(pl: Placement, k: nat, chosen: set<nat>)
    requires Fits(pl, k, chosen)
    ensures chosen <= pl.Keys
  {
  }

  lemma {:induction false} MoreChoices(pl: Placement, ws: seq<Workload>, i: nat, choices: seq<set<nat>>,
                                       chosen: set<nat>)
    requires i < |ws| && |choices| == i && ChoicesFit(pl, ws[..i], choices)
    requires if ws[i].id in WorkloadsOn(pl) then chosen == {}
             else Fits(PlaceChoices(pl, ws[..i], choices), ws[i].count, chosen)
    ensures ChoicesFit(pl, ws[..i + 1], choices + [chosen])
    ensures PlaceChoices(pl, ws[..i + 1], choices + [chosen])
         == Claim(PlaceChoices(pl, ws[..i], choices), chosen, ws[i].id)
  {
    hide Fits, Claim, WorkloadsOn, PlaceChoices;
    var ws', choices' := ws[..i + 1], choices + [chosen];
    LastChoice(pl, ws, i, choices, chosen);
    forall j | 0 <= j < i ensures ws'[..j] == ws[..i][..j] && choices'[..j] == choices[..j] && ws'[j] == ws[..i][j] {
    }
  }

  lemma LastChoice(pl: Placement, ws: seq<Workload>, i: nat, choices: seq<set<nat>>, chosen: set<nat>)
    requires i < |ws| && |choices| == i
    ensures ws[..i + 1][..i] == ws[..i] && (choices + [chosen])[..i] == choices
    ensures PlaceChoices(pl, ws[..i + 1], choices + [chosen])
         == Claim(PlaceChoices(pl, ws[..i], choices), chosen, ws[i].id)
  {
    hide Claim;
    assert ws[..i + 1][..i] == ws[..i] && (choices + [chosen])[..i] == choices;
  }
}
