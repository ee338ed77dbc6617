/** Sequences, sets and sums: the vocabulary shared by every other module. */
module Collections {

  datatype Option<+T> = None | Some(value: T)

  /** A value, or the Python exception that took its place. */
  datatype Result<+T> = Success(value: T) | Failure

  function Max(a: int, b: int): (r: int)
    ensures a <= r && b <= r && (r == a || r == b)
  {
    if a <= b then b else a
  }

  function Min(a: int, b: int): (r: int)
    ensures r <= a && r <= b && (r == a || r == b)
  {
    if a <= b then a else b
  }

  ghost predicate NoDup<T>(s: seq<T>) {
    forall i, j :: 0 <= i < j < |s| ==> s[i] != s[j]
  }

  function ToSet<T(==)>(s: seq<T>): set<T> { set x | x in s }

  /** `reduce(list.__add__, ss)`. */
  function Flatten<T>(ss: seq<seq<T>>): seq<T> {
    if ss == [] then [] else ss[0] + Flatten(ss[1..])
  }

  /** `[x for x in s if x in keep]`: every filtering comprehension of the source. */
  function Keep<T(==)>(s: seq<T>, keep: set<T>): (r: seq<T>)
  {
    if s == [] then [] else
    if s[0] in keep then [s[0]] + Keep(s[1..], keep) else Keep(s[1..], keep)
  }

  lemma {:induction false} KeepFacts<T>(s: seq<T>, keep: set<T>)
    ensures ToSet(Keep(s, keep)) == ToSet(s) * keep
    ensures NoDup(s) ==> NoDup(Keep(s, keep)) && |Keep(s, keep)| == |ToSet(s) * keep|
  {
    if s != [] {
      var rest := Keep(s[1..], keep);
      KeepFacts(s[1..], keep);
      assert ToSet(s) == {s[0]} + ToSet(s[1..]);
      ToSetConcat([s[0]], rest);
      assert ToSet([s[0]]) == {s[0]};
      if NoDup(s) {
        assert s[0] !in ToSet(s[1..]);
        if s[0] in keep { NoDupJoin([s[0]], rest); }
        NoDupCard(Keep(s, keep));
      }
    }
  }

  lemma KeepConcat<T>(a: seq<T>, b: seq<T>, keep: set<T>)
    ensures Keep(a + b, keep) == Keep(a, keep) + Keep(b, keep)
  {
    if a == [] {
      assert a + b == b;
    } else {
      assert (a + b)[1..] == a[1..] + b;
      KeepConcat(a[1..], b, keep);
    }
  }

  /** What is kept keeps its order: whoever is kept before a kept member among the first `n` is itself among them. */
  lemma {:induction false} KeepInOrder<T>(s: seq<T>, keep: set<T>, n: nat, i: nat, j: nat)
    requires NoDup(s) && i < j < |s| && n <= |Keep(s, keep)| && s[i] in keep && s[j] in Keep(s, keep)[..n]
    ensures s[i] in Keep(s, keep)[..n]
  {
    var rest := Keep(s[1..], keep);
    if s[0] !in keep {
      assert i > 0 ==> s[i] == s[1..][i - 1] && s[j] == s[1..][j - 1];
      KeepInOrder(s[1..], keep, n, i - 1, j - 1);
    } else {
      var first := Keep(s, keep)[..n];
      assert first == [s[0]] + rest[..n - 1];
      assert s[j] == s[1..][j - 1] && s[j] != s[0];
      if i > 0 {
        KeepInOrder(s[1..], keep, n - 1, i - 1, j - 1);
        assert s[i] == s[1..][i - 1];
      }
    }
  }

  lemma NoDupCard<T>(s: seq<T>)
    requires NoDup(s)
    ensures |ToSet(s)| == |s|
  {
    if s != [] {
      var n := |s| - 1;
      NoDupCard(s[..n]);
      assert ToSet(s) == ToSet(s[..n]) + {s[n]};
    }
  }

  /** Two lists of the same members without repetitions are permutations of each other. */
  lemma SameMultiset<T>(a: seq<T>, b: seq<T>)
    requires NoDup(a) && NoDup(b) && ToSet(a) == ToSet(b)
    ensures multiset(a) == multiset(b)
  {
    forall x ensures multiset(a)[x] == multiset(b)[x] {
      OnceAtMost(a, x);
      OnceAtMost(b, x);
      assert x in ToSet(a) <==> x in ToSet(b);
    }
  }

  lemma {:induction false} OnceAtMost<T>(s: seq<T>, x: T)
    requires NoDup(s)
    ensures multiset(s)[x] == if x in s then 1 else 0
    decreases |s|
  {
    if s != [] {
      var n := |s| - 1;
      assert s == s[..n] + [s[n]];
      OnceAtMost(s[..n], x);
    }
  }

  lemma ToSetConcat<T>(a: seq<T>, b: seq<T>)
    ensures ToSet(a + b) == ToSet(a) + ToSet(b)
  {
  }

  lemma PrefixSet<T>(s: seq<T>, i: nat)
    requires i < |s|
    ensures ToSet(s[..i + 1]) == ToSet(s[..i]) + {s[i]} && s[i] in ToSet(s)
  {
  }

  lemma WholePrefix<T>(s: seq<T>)
    ensures s[..|s|] == s
  {
  }

  lemma SubsetCard<T>(a: set<T>, b: set<T>)
    requires a <= b
    ensures |a| <= |b|
    ensures |a| == |b| ==> a == b
    ensures |b - a| == |b| - |a|
  {
    assert b == a + (b - a);
  }

  /** The first `n` natural numbers. */
  ghost function Below(n: nat): (s: set<nat>)
    ensures |s| == n && forall p: nat :: p in s <==> p < n
  {
    if n == 0 then {} else Below(n - 1) + {n - 1}
  }

  lemma UnionCard<T>(a: set<T>, b: set<T>)
    ensures |a + b| <= |a| + |b|
    ensures a !! b ==> |a + b| == |a| + |b|
  {
    assert a + b == a + (b - a);
    SubsetCard(b - a, b);
    if a !! b { assert b - a == b; }
  }

  lemma {:induction false} CardNoDup<T>(s: seq<T>)
    ensures |ToSet(s)| <= |s|
    ensures |ToSet(s)| == |s| ==> NoDup(s)
    decreases |s|
  {
    if s != [] {
      var init, x := s[..|s| - 1], s[|s| - 1];
      CardNoDup(init);
      assert ToSet(s) == ToSet(init) + {x};
      UnionCard(ToSet(init), {x});
      if |ToSet(s)| == |s| {
        assert x in ToSet(init) ==> ToSet(s) == ToSet(init);
        assert s == init + [x];
        assert NoDup([x]);
        NoDupJoin(init, [x]);
      }
    }
  }

  /** A set in which any two members coincide. */
  lemma AtMostOneCard<T>(s: set<T>)
    requires forall x, y :: x in s && y in s ==> x == y
    ensures |s| <= 1
  {
    if s != {} {
      var x :| x in s;
      assert s == {x};
    }
  }

  lemma NoDupConcat<T>(a: seq<T>, b: seq<T>)
    requires NoDup(a + b)
    ensures NoDup(a) && NoDup(b) && ToSet(a) !! ToSet(b)
  {
    forall i, j | 0 <= i < j < |a| ensures a[i] != a[j] {
      assert (a + b)[i] == a[i] && (a + b)[j] == a[j];
    }
    forall i, j | 0 <= i < j < |b| ensures b[i] != b[j] {
      assert (a + b)[|a| + i] == b[i] && (a + b)[|a| + j] == b[j];
    }
    forall i, j | 0 <= i < |a| && 0 <= j < |b| ensures a[i] != b[j] {
      assert (a + b)[i] == a[i] && (a + b)[|a| + j] == b[j];
    }
  }

  lemma NoDupJoin<T>(a: seq<T>, b: seq<T>)
    requires NoDup(a) && NoDup(b) && ToSet(a) !! ToSet(b)
    ensures NoDup(a + b)
  {
    forall i, j | 0 <= i < j < |a + b| ensures (a + b)[i] != (a + b)[j] {
      if i < |a| <= j {
        assert a[i] in ToSet(a) && b[j - |a|] in ToSet(b);
      }
    }
  }

  lemma {:induction false} FlattenConcat<T>(a: seq<seq<T>>, b: seq<seq<T>>)
    ensures Flatten(a + b) == Flatten(a) + Flatten(b)
  {
    if a == [] {
      assert a + b == b;
    } else {
      assert (a + b)[1..] == a[1..] + b;
      FlattenConcat(a[1..], b);
    }
  }

  lemma {:induction false} FlattenMember<T>(ss: seq<seq<T>>, i: nat, x: T)
    requires i < |ss| && x in ss[i]
    ensures x in Flatten(ss)
  {
    if i > 0 { FlattenMember(ss[1..], i - 1, x); }
  }

  lemma {:induction false} FlattenOrigin<T>(ss: seq<seq<T>>, x: T) returns (i: nat)
    requires x in Flatten(ss)
    ensures i < |ss| && x in ss[i]
  {
    if x in ss[0] {
      i := 0;
    } else {
      var j := FlattenOrigin(ss[1..], x);
      i := j + 1;
    }
  }

  /** A list of lists with no repetition anywhere: each part has none, and the parts are disjoint. */
  lemma {:induction false} FlattenNoDup<T>(ss: seq<seq<T>>)
    requires NoDup(Flatten(ss))
    ensures forall i :: 0 <= i < |ss| ==> NoDup(ss[i])
    ensures forall i, j :: 0 <= i < j < |ss| ==> ToSet(ss[i]) !! ToSet(ss[j])
  {
    if ss != [] {
      NoDupConcat(ss[0], Flatten(ss[1..]));
      FlattenNoDup(ss[1..]);
      forall i, j | 0 <= i < j < |ss| ensures ToSet(ss[i]) !! ToSet(ss[j]) {
        if i == 0 {
          forall x | x in ss[j] ensures x in ToSet(Flatten(ss[1..])) {
            FlattenMember(ss[1..], j - 1, x);
          }
        } else {
          assert ss[i] == ss[1..][i - 1] && ss[j] == ss[1..][j - 1];
        }
      }
      forall i | 0 <= i < |ss| ensures NoDup(ss[i]) {
        if i > 0 { assert ss[i] == ss[1..][i - 1]; }
      }
    }
  }
}
