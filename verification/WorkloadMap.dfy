/** The manager's workload map: a Python dictionary, with its insertion order. */
module WorkloadMap {
  import opened Collections
  import opened Topology
  import opened GreedyPlacement

  /** `m.pop(id, None)`. */
  function Pop(m: seq<Workload>, id: Id): seq<Workload> {
    if m == [] then [] else
      var before := Pop(m[..|m| - 1], id);
      if m[|m| - 1].id == id then before else before + [m[|m| - 1]]
  }

  function Replace(m: seq<Workload>, w: Workload): seq<Workload> {
    seq(|m|, i requires 0 <= i < |m| => if m[i].id == w.id then w else m[i])
  }

  /** `m[w.id] = w`: in place if the key is there, at the end otherwise. */
  function Put(m: seq<Workload>, w: Workload): seq<Workload> {
    if w.id in Ids(m) then Replace(m, w) else m + [w]
  }

  function PopAll(m: seq<Workload>, removes: seq<Id>): seq<Workload> {
    if removes == [] then m else Pop(PopAll(m, removes[..|removes| - 1]), removes[|removes| - 1])
  }

  function PutAll(m: seq<Workload>, adds: seq<Workload>): seq<Workload> {
    if adds == [] then m else Put(PutAll(m, adds[..|adds| - 1]), adds[|adds| - 1])
  }

  /** The map that `isolate(adds, removes)` works with: removes first, then adds. */
  function Requested(m: seq<Workload>, adds: seq<Workload>, removes: seq<Id>): seq<Workload> {
    PutAll(PopAll(m, removes), adds)
  }

  lemma {:induction false} PopFacts(m: seq<Workload>, id: Id)
    requires DistinctIds(m)
    ensures DistinctIds(Pop(m, id)) && Ids(Pop(m, id)) == Ids(m) - {id}
    ensures forall w :: w in Pop(m, id) <==> w in m && w.id != id
    ensures id !in Ids(m) ==> Pop(m, id) == m
    decreases |m|
  {
    if m != [] {
      var n := |m| - 1;
      assert m == m[..n] + [m[n]];
      IdsPrefix(m);
      PopFacts(m[..n], id);
      var r, before := Pop(m, id), Pop(m[..n], id);
      if m[n].id != id {
        AppendFacts(before, m[n]);
      }
    }
  }

  /** The popped key leaves its place, the others keep their order. */
  lemma {:induction false} PopAt(m: seq<Workload>, id: Id, k: nat)
    requires DistinctIds(m) && k < |m| && m[k].id == id
    ensures Pop(m, id) == m[..k] + m[k + 1..]
    decreases |m|
  {
    var n := |m| - 1;
    IdsPrefix(m);
    if k < n {
      PopAt(m[..n], id, k);
      assert m[..n][k + 1..] + [m[n]] == m[k + 1..];
      assert m[..n][..k] == m[..k];
    } else {
      PopFacts(m[..n], id);
      assert m[..k] + m[k + 1..] == m[..n];
    }
  }

  lemma AppendFacts(m: seq<Workload>, w: Workload)
    requires DistinctIds(m) && w.id !in Ids(m)
    ensures DistinctIds(m + [w]) && Ids(m + [w]) == Ids(m) + {w.id}
  {
    var r := m + [w];
    forall i, j | 0 <= i < j < |r| ensures r[i].id != r[j].id {
      assert r[i].id in Ids(m);
    }
    assert r[..|r| - 1] == m;
    IdsPrefix(r);
  }

  lemma PutFacts(m: seq<Workload>, w: Workload)
    requires DistinctIds(m)
    ensures DistinctIds(Put(m, w)) && Ids(Put(m, w)) == Ids(m) + {w.id}
    ensures forall v :: v in Put(m, w) <==> v == w || (v in m && v.id != w.id)
    ensures |m| <= |Put(m, w)| && forall i :: 0 <= i < |m| ==> Put(m, w)[i].id == m[i].id
  {
    var r := Put(m, w);
    if w.id in Ids(m) {
      var k :| 0 <= k < |m| && m[k].id == w.id;
      assert r[k] == w;
      forall i | 0 <= i < |m| ensures r[i].id == m[i].id && (r[i] == w || (r[i] == m[i] && m[i].id != w.id)) {
      }
      forall v | v in m && v.id != w.id ensures v in r {
        var i :| 0 <= i < |m| && m[i] == v;
        assert r[i] == v;
      }
      forall x | x in Ids(m) ensures x in Ids(r) {
        var i :| 0 <= i < |m| && m[i].id == x;
        assert r[i].id == x;
      }
      forall x | x in Ids(r) ensures x in Ids(m) {
        var i :| 0 <= i < |m| && r[i].id == x;
        assert m[i].id == x;
      }
    } else {
      AppendFacts(m, w);
      forall v | v in m ensures v.id != w.id {
        var i :| 0 <= i < |m| && m[i] == v;
        assert m[i].id in Ids(m);
      }
    }
  }

  lemma {:induction false} PopAllFacts(m: seq<Workload>, removes: seq<Id>)
    requires DistinctIds(m)
    ensures DistinctIds(PopAll(m, removes)) && Ids(PopAll(m, removes)) == Ids(m) - ToSet(removes)
    ensures forall w :: w in PopAll(m, removes) <==> w in m && w.id !in removes
    decreases |removes|
  {
    if removes != [] {
      var n := |removes| - 1;
      assert removes == removes[..n] + [removes[n]];
      PopAllFacts(m, removes[..n]);
      PopFacts(PopAll(m, removes[..n]), removes[n]);
    }
  }

  lemma {:induction false} PutAllFacts(m: seq<Workload>, adds: seq<Workload>)
    requires DistinctIds(m)
    ensures DistinctIds(PutAll(m, adds)) && Ids(PutAll(m, adds)) == Ids(m) + Ids(adds)
    decreases |adds|
  {
    if adds != [] {
      var n := |adds| - 1;
      PutAllFacts(m, adds[..n]);
      PutFacts(PutAll(m, adds[..n]), adds[n]);
      assert Ids(adds) == Ids(adds[..n]) + {adds[n].id} by {
        assert forall i :: 0 <= i < n ==> adds[..n][i] == adds[i];
        forall x | x in Ids(adds) ensures x in Ids(adds[..n]) + {adds[n].id} {
          var i :| 0 <= i < |adds| && adds[i].id == x;
          if i < n { assert adds[..n][i].id == x; }
        }
        forall x | x in Ids(adds[..n]) ensures x in Ids(adds) {
          var i :| 0 <= i < n && adds[..n][i].id == x;
          assert adds[i].id == x;
        }
      }
    }
  }

  lemma RequestedFacts(m: seq<Workload>, adds: seq<Workload>, removes: seq<Id>)
    requires DistinctIds(m)
    ensures DistinctIds(Requested(m, adds, removes))
    ensures Ids(Requested(m, adds, removes)) == Ids(m) - ToSet(removes) + Ids(adds)
  {
    PopAllFacts(m, removes);
    PutAllFacts(PopAll(m, removes), adds);
  }

  /** Removing one workload and adding another commute, order included. */
  lemma PopPutCommute(m: seq<Workload>, w: Workload, id: Id)
    requires DistinctIds(m) && id != w.id
    ensures Pop(Put(m, w), id) == Put(Pop(m, id), w)
  {
    PopFacts(m, id);
    if w.id in Ids(m) {
      PopReplace(m, w, id);
    } else {
      assert (m + [w])[..|m|] == m;
    }
  }

  lemma {:induction false} PopReplace(m: seq<Workload>, w: Workload, id: Id)
    requires id != w.id
    ensures Pop(Replace(m, w), id) == Replace(Pop(m, id), w)
    decreases |m|
  {
    if m != [] {
      var n := |m| - 1;
      PopReplace(m[..n], w, id);
      assert Replace(m, w)[..n] == Replace(m[..n], w);
    }
  }

  lemma {:induction false} PopPutAllCommute(m: seq<Workload>, adds: seq<Workload>, id: Id)
    requires DistinctIds(m) && forall w :: w in adds ==> w.id != id
    ensures Pop(PutAll(m, adds), id) == PutAll(Pop(m, id), adds)
    decreases |adds|
  {
    if adds != [] {
      var n := |adds| - 1;
      assert adds == adds[..n] + [adds[n]];
      PutAllFacts(m, adds[..n]);
      PopPutAllCommute(m, adds[..n], id);
      PopPutCommute(PutAll(m, adds[..n]), adds[n], id);
    }
  }
}
