/**
  Draining the largest bin first. The greedy allocator does this twice: over the packages of the CPU
  (bins of empty threads) and, inside a package, over its cores. What it does at both levels, and why
  no other choice of threads touches fewer bins, is stated and proved here once.
 */
module Bins {
  import opened Collections

  type Bins = seq<set<nat>>

  ghost predicate Disjoint(bins: Bins) {
    forall i, j :: 0 <= i < j < |bins| ==> bins[i] !! bins[j]
  }

  function Sizes(bins: Bins): seq<nat> {
    seq(|bins|, i requires 0 <= i < |bins| => |bins[i]|)
  }

  /** The first index holding the largest size: the scan of `get_emptiest_package` and `get_emptiest_core`. */
  function Largest(sizes: seq<nat>): (b: nat)
    requires |sizes| > 0
    ensures b < |sizes|
    ensures forall i :: 0 <= i < |sizes| ==> sizes[i] <= sizes[b]
    ensures forall i :: 0 <= i < b ==> sizes[i] < sizes[b]
  {
    var n := |sizes| - 1;
    if n == 0 then 0 else
      var b := Largest(sizes[..n]);
      if sizes[n] > sizes[b] then n else b
  }

  lemma LargestFirst(sizes: seq<nat>)
    requires |sizes| > 0
    ensures Largest(sizes[..1]) == 0
  {
  }

  /** One step of the scan. */
  lemma LargestStep(sizes: seq<nat>, i: nat)
    requires 0 < i < |sizes|
    ensures var b := Largest(sizes[..i]);
            Largest(sizes[..i + 1]) == if sizes[i] > sizes[b] then i else b
  {
    assert sizes[..i + 1][..i] == sizes[..i];
  }

  function LargestBin(bins: Bins): (b: nat)
    requires |bins| > 0
    ensures b < |bins| && forall i :: 0 <= i < |bins| ==> |bins[i]| <= |bins[b]|
  {
    var b := Largest(Sizes(bins));
    assert forall i {:trigger bins[i]} :: 0 <= i < |bins| ==> Sizes(bins)[i] <= Sizes(bins)[b];
    b
  }

  /** Those bins that have a member in `s`. */
  ghost function Touched(bins: Bins, s: set<nat>): set<nat> {
    set b | 0 <= b < |bins| && bins[b] * s != {}
  }

  ghost predicate Within(bins: Bins, s: set<nat>) {
    forall t :: t in s ==> exists b :: 0 <= b < |bins| && t in bins[b]
  }

  lemma WithinSubset(bins: Bins, big: set<nat>, small: set<nat>)
    requires Within(bins, big) && small <= big
    ensures Within(bins, small)
  {
  }

  ghost predicate NoneHolds(bins: Bins, k: nat) { forall i :: 0 <= i < |bins| ==> |bins[i]| < k }

  /** `taken` is `k` members, found by emptying the largest bin first, again and again; the last bin may keep some. */
  ghost predicate DrainsLargestFirst(bins: Bins, k: nat, taken: set<nat>)
    decreases k
  {
    if k == 0 then taken == {} else
      && |bins| > 0
      && var b := LargestBin(bins);
         && bins[b] != {}
         && if k <= |bins[b]| then taken <= bins[b] && |taken| == k
            else bins[b] <= taken && DrainsLargestFirst(bins[b := {}], k - |bins[b]|, taken - bins[b])
  }

  lemma DrainedFacts(bins: Bins, k: nat, taken: set<nat>)
    requires DrainsLargestFirst(bins, k, taken)
    ensures |taken| == k && Within(bins, taken)
    decreases k
  {
    if k > 0 {
      var b := LargestBin(bins);
      if k > |bins[b]| {
        DrainedFacts(bins[b := {}], k - |bins[b]|, taken - bins[b]);
        SubsetCard(bins[b], taken);
        forall t | t in taken ensures exists i :: 0 <= i < |bins| && t in bins[i] {
          if t !in bins[b] {
            assert t in taken - bins[b];
            var i :| 0 <= i < |bins| && t in bins[b := {}][i];
          }
        }
      }
    }
  }

  /** A request that the largest bin can hold. */
  lemma DrainHead(bins: Bins, now: seq<nat>)
    requires |bins| > 0 && NoDup(now) && ToSet(now) <= bins[LargestBin(bins)] && now != []
    ensures DrainsLargestFirst(bins, |now|, ToSet(now))
  {
    NoDupCard(now);
    assert now[0] in ToSet(now);
    SubsetCard(ToSet(now), bins[LargestBin(bins)]);
  }

  /** The largest bin, then a drain of what is left. */
  lemma DrainCons(bins: Bins, first: seq<nat>, rest: seq<nat>)
    requires |bins| > 0 && Disjoint(bins)
    requires NoDup(first) && ToSet(first) == bins[LargestBin(bins)] != {}
    requires NoDup(rest) && DrainsLargestFirst(bins[LargestBin(bins) := {}], |rest|, ToSet(rest))
    ensures NoDup(first + rest) && DrainsLargestFirst(bins, |first + rest|, ToSet(first + rest))
  {
    hide Touched, Disjoint, LargestBin, NoDup;
    var b := LargestBin(bins);
    NoDupCard(first);
    RestAvoids(bins, b, rest);
    NoDupJoin(first, rest);
    ToSetConcat(first, rest);
    assert ToSet(first + rest) - bins[b] == ToSet(rest);
    assert |first + rest| == |bins[b]| + |rest|;
    if rest == [] {
      assert first + rest == first;
    }
  }

  // ---- what draining the largest bin first is worth ----

  /**
    Optimality: among all choices of at least `k` members, draining the largest bin first touches the fewest bins.
    Whatever bin the other choice also touches, giving it up costs that choice at most what the largest bin held.
   */
  lemma {:induction false} FewestBins(bins: Bins, k: nat, taken: set<nat>, other: set<nat>)
    requires Disjoint(bins) && DrainsLargestFirst(bins, k, taken)
    requires Within(bins, other) && |other| >= k
    ensures |Touched(bins, taken)| <= |Touched(bins, other)|
    decreases k
  {
    hide Touched, Disjoint, Within;
    if k == 0 {
      TouchedByNothing(bins);
    } else {
      var b := LargestBin(bins);
      var x := SomeTouched(bins, other);
      if k <= |bins[b]| {
        TouchedOne(bins, b, taken);
        SubsetCard({x}, Touched(bins, other));
      } else {
        var y := if b in Touched(bins, other) then b else x;
        GiveUpSize(bins, b, y, other);
        GiveUpWithin(bins, b, y, other);
        GiveUpTouched(bins, b, y, other);
        DisjointAfterDrain(bins, b);
        FewestBins(bins[b := {}], k - |bins[b]|, taken - bins[b], other - bins[y]);
        TouchedCardStep(bins, b, taken);
      }
    }
  }

  /** More than one bin is touched exactly when no single bin could have held the request. */
  lemma {:induction false} SpansIffNoBinFits(bins: Bins, k: nat, taken: set<nat>)
    requires Disjoint(bins) && DrainsLargestFirst(bins, k, taken)
    ensures |Touched(bins, taken)| > 1 <==> k > 0 && NoneHolds(bins, k)
  {
    hide NoDup, Disjoint;
    if k == 0 {
      assert Touched(bins, taken) == {};
    } else {
      var b := LargestBin(bins);
      if k <= |bins[b]| {
        TouchedOne(bins, b, taken);
      } else {
        var rest := bins[b := {}];
        DrainedFacts(rest, k - |bins[b]|, taken - bins[b]);
        var u: nat :| u in bins[b];
        var t: nat :| t in taken - bins[b];
        var x: nat :| x < |rest| && t in rest[x];
        TouchedBy(bins, b, u, taken);
        TouchedBy(bins, x, t, taken);
        SubsetCard({b, x}, Touched(bins, taken));
      }
    }
  }

  /** Of any two touched bins, one was emptied: at most one touched bin keeps a member. */
  lemma {:induction false} AtMostOneLeftOpen(bins: Bins, k: nat, taken: set<nat>, i: nat, j: nat)
    requires Disjoint(bins) && DrainsLargestFirst(bins, k, taken)
    requires i in Touched(bins, taken) && j in Touched(bins, taken) && i != j
    ensures bins[i] <= taken || bins[j] <= taken
    decreases k
  {
    if k > 0 {
      var b := LargestBin(bins);
      if k > |bins[b]| && i != b && j != b {
        DisjointAfterDrain(bins, b);
        TouchedOthers(bins, b, taken);
        AtMostOneLeftOpen(bins[b := {}], k - |bins[b]|, taken - bins[b], i, j);
      }
    }
  }

  // ---- steps towards it ----

  lemma RestAvoids(bins: Bins, b: nat, rest: seq<nat>)
    requires b < |bins| && Disjoint(bins) && DrainsLargestFirst(bins[b := {}], |rest|, ToSet(rest))
    ensures ToSet(rest) !! bins[b]
  {
    DrainedFacts(bins[b := {}], |rest|, ToSet(rest));
    forall t | t in ToSet(rest) ensures t !in bins[b] {
      var i :| 0 <= i < |bins| && t in bins[b := {}][i];
    }
  }

  lemma DisjointAfterDrain(bins: Bins, b: nat)
    requires b < |bins| && Disjoint(bins)
    ensures Disjoint(bins[b := {}])
  {
  }

  lemma TouchedOthers(bins: Bins, b: nat, s: set<nat>)
    requires b < |bins| && Disjoint(bins)
    ensures Touched(bins[b := {}], s - bins[b]) == Touched(bins, s) - {b}
  {
    forall i | 0 <= i < |bins| && i != b ensures bins[i] * (s - bins[b]) == bins[i] * s {
    }
  }

  /** Without bin `y`, a choice that avoids bin `b` is smaller by at most what `b` holds. */
  lemma GiveUpSize(bins: Bins, b: nat, y: nat, other: set<nat>)
    requires b < |bins| && y < |bins| && |bins[y]| <= |bins[b]|
    ensures |other - bins[y]| >= |other| - |bins[b]|
  {
    assert other - bins[y] == other - other * bins[y];
    SubsetCard(other * bins[y], bins[y]);
    SubsetCard(other * bins[y], other);
  }

  lemma GiveUpWithin(bins: Bins, b: nat, y: nat, other: set<nat>)
    requires b < |bins| && y < |bins| && Within(bins, other)
    requires y == b || b !in Touched(bins, other)
    ensures Within(bins[b := {}], other - bins[y])
  {
    var rest := bins[b := {}];
    forall u | u in other - bins[y] ensures exists i :: 0 <= i < |rest| && u in rest[i] {
      var i :| 0 <= i < |bins| && u in bins[i];
      assert u in bins[i] * other;
      assert rest[i] == bins[i];
    }
  }

  lemma GiveUpTouched(bins: Bins, b: nat, y: nat, other: set<nat>)
    requires b < |bins| && y < |bins| && Disjoint(bins)
    requires y in Touched(bins, other) && (y == b || b !in Touched(bins, other))
    ensures |Touched(bins[b := {}], other - bins[y])| < |Touched(bins, other)|
  {
    var rest, other' := bins[b := {}], other - bins[y];
    TouchedOthers(bins, y, other);
    var before, after := Touched(bins, other), Touched(rest, other');
    forall i | i in after ensures i in before - {y} {
      var u :| u in rest[i] * other';
      assert u in bins[i] * other;
    }
    SubsetCard(after, before - {y});
    SubsetCard({y}, before);
  }

  lemma TouchedCardStep(bins: Bins, b: nat, taken: set<nat>)
    requires b < |bins| && Disjoint(bins)
    ensures |Touched(bins, taken)| <= |Touched(bins[b := {}], taken - bins[b])| + 1
  {
    TouchedOthers(bins, b, taken);
    SubsetCard(Touched(bins, taken) - {b}, Touched(bins, taken));
  }

  /** Members of one bin touch that bin only. */
  lemma TouchedOne(bins: Bins, b: nat, taken: set<nat>)
    requires b < |bins| && Disjoint(bins) && taken <= bins[b]
    ensures Touched(bins, taken) <= {b} && |Touched(bins, taken)| <= 1
  {
    SubsetCard(Touched(bins, taken), {b});
  }

  lemma TouchedBy(bins: Bins, x: nat, t: nat, s: set<nat>)
    requires x < |bins| && t in bins[x] && t in s
    ensures x in Touched(bins, s)
  {
    assert t in bins[x] * s;
  }

  lemma TouchedByNothing(bins: Bins)
    ensures Touched(bins, {}) == {}
  {
  }

  lemma SomeTouched(bins: Bins, s: set<nat>) returns (x: nat)
    requires Within(bins, s) && s != {}
    ensures x < |bins| && x in Touched(bins, s)
  {
    var t: nat :| t in s;
    x :| 0 <= x < |bins| && t in bins[x];
    TouchedBy(bins, x, t, s);
  }
}
