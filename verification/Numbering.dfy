/**
  How the processor of a host is built from its three counts, and the two ways of numbering its threads: the
  operating system's ids, which the tree carries, and the natural positions of the flattened tree.
 */
module Numbering {
  import opened Collections
  import opened Topology

  // ---- quotients ----

  /** Quotient and remainder are the only digits of a number. */
  lemma {:induction false} DivMod(q: nat, r: nat, d: nat)
    requires r < d
    ensures (q * d + r) / d == q && (q * d + r) % d == r
  {
    var n := q * d + r;
    var q', r' := n / d, n % d;
    assert n == q' * d + r';
    assert (q' - q) * d == r - r';
    assert (q - q') * d == r' - r;
    if q' > q { MulAtLeast(q' - q, d); }
    if q > q' { MulAtLeast(q - q', d); }
  }

  lemma MulAtLeast(a: nat, d: nat)
    requires a >= 1
    ensures a * d >= d
  {
    assert a * d == d + (a - 1) * d;
  }

  /** A number below `m * d` has a quotient below `m`. */
  lemma DivBelow(n: nat, m: nat, d: nat)
    requires d > 0 && n < m * d
    ensures n / d < m && n % d < d && n == (n / d) * d + n % d
  {
    MulMonotone(m, n / d, d);
  }

  lemma MulMonotone(a: nat, b: nat, d: nat)
    ensures a <= b ==> a * d <= b * d
  {
    if a <= b { assert b * d == a * d + (b - a) * d; }
  }

  lemma {:induction false} DigitsBelow(q: nat, r: nat, m: nat, d: nat)
    requires q < m && r < d
    ensures q * d + r < m * d
  {
    assert m * d == q * d + (m - q) * d;
    MulAtLeast(m - q, d);
  }

  // ---- the tree ----

  /** Row by row: the first thread of every core comes before the second thread of any. */
  function NumberedCore(packages: nat, cores: nat, threads: nat, p: nat, c: nat): Core {
    Core(c, seq(threads, r requires 0 <= r < threads => r * packages * cores + p * cores + c))
  }

  function NumberedPackage(packages: nat, cores: nat, threads: nat, p: nat): Package {
    Package(p, seq(cores, c requires 0 <= c < cores => NumberedCore(packages, cores, threads, p, c)))
  }

  function Numbered(packages: nat, cores: nat, threads: nat): Shape {
    seq(packages, p requires 0 <= p < packages => NumberedPackage(packages, cores, threads, p))
  }

  /** `get_cpu`: a processor without a package, a package without a core or a core without a thread raises. */
  method GetCpu(packages: nat, cores: nat, threads: nat) returns (r: Result<Shape>)
    ensures r == if packages > 0 && cores > 0 && threads > 0 then Success(Numbered(packages, cores, threads))
                 else Failure
  {
    var shape: Shape := [];
    for p := 0 to packages
      invariant shape == Numbered(packages, cores, threads)[..p]
      invariant p > 0 ==> cores > 0 && threads > 0
    {
      var coreList: seq<Core> := [];
      for c := 0 to cores
        invariant coreList == NumberedPackage(packages, cores, threads, p).cores[..c]
        invariant c > 0 ==> threads > 0
      {
        var ids := GetThreads(p, c, packages, cores, threads);
        if |ids| < 1 {
          return Failure;
        }
        coreList := coreList + [Core(c, ids)];
      }
      if |coreList| < 1 {
        return Failure;
      }
      WholePrefix(NumberedPackage(packages, cores, threads, p).cores);
      shape := shape + [Package(p, coreList)];
    }
    if |shape| < 1 {
      return Failure;
    }
    WholePrefix(Numbered(packages, cores, threads));
    r := Success(shape);
  }

  method GetThreads(p: nat, c: nat, packages: nat, cores: nat, threads: nat) returns (ids: seq<nat>)
    ensures ids == NumberedCore(packages, cores, threads, p, c).threads
  {
    ids := [];
    for row := 0 to threads
      invariant ids == NumberedCore(packages, cores, threads, p, c).threads[..row]
    {
      var offset := row * packages * cores;
      var index := offset + p * cores + c;
      ids := ids + [index];
    }
  }

  /** Package `p` has id p, its core `c` has id c, and thread `r` of that core has id r * (P * C) + p * C + c. */
  lemma NumberedIds(packages: nat, cores: nat, threads: nat, p: nat, c: nat, r: nat)
    requires p < packages && c < cores && r < threads
    ensures var shape := Numbered(packages, cores, threads);
            && |shape| == packages && shape[p].id == p
            && |shape[p].cores| == cores && shape[p].cores[c].id == c
            && |shape[p].cores[c].threads| == threads
            && shape[p].cores[c].threads[r] == r * (packages * cores) + p * cores + c
  {
    Assoc(r, packages, cores);
  }

  // ---- positions ----

  lemma OneRowMore(n: nat, m: nat)
    requires n > 0
    ensures n * m == m + (n - 1) * m
  {
  }

  lemma {:induction false} FlattenLength<T>(ss: seq<seq<T>>, m: nat)
    requires forall i :: 0 <= i < |ss| ==> |ss[i]| == m
    ensures |Flatten(ss)| == |ss| * m
    decreases |ss|
  {
    if ss != [] {
      FlattenLength(ss[1..], m);
      OneRowMore(|ss|, m);
    }
  }

  lemma {:induction false} FlattenAt<T>(ss: seq<seq<T>>, m: nat, q: nat, r: nat)
    requires q < |ss| && r < m && forall i :: 0 <= i < |ss| ==> |ss[i]| == m
    ensures q * m + r < |Flatten(ss)| && Flatten(ss)[q * m + r] == ss[q][r]
    decreases |ss|
  {
    var rest := ss[1..];
    if q > 0 {
      FlattenAt(rest, m, q - 1, r);
      var before := (q - 1) * m + r;
      OneRowMore(q, m);
      assert q * m + r == m + before;
      assert Flatten(ss)[m + before] == Flatten(rest)[before];
    }
  }

  /** The id at natural position `i`, and the natural position of an id. */
  function OriginalOf(i: nat, k: nat, threads: nat): nat
    requires threads > 0
  {
    (i % threads) * k + i / threads
  }

  function NaturalOf(id: nat, k: nat, threads: nat): nat
    requires k > 0
  {
    (id % k) * threads + id / k
  }

  /** Where a thread sits in the flattened tree, by package, core and row. */
  lemma {:induction false} PositionOf(packages: nat, cores: nat, threads: nat, p: nat, c: nat, r: nat)
    requires p < packages && c < cores && r < threads
    ensures |Threads(Numbered(packages, cores, threads))| == packages * cores * threads
    ensures var q := p * cores + c;
            && q < packages * cores && q * threads + r < packages * cores * threads
            && Threads(Numbered(packages, cores, threads))[q * threads + r] == r * (packages * cores) + q
  {
    var q := p * cores + c;
    PositionInTree(packages, cores, threads, cores * threads, p, c, r);
    Assoc(packages, cores, threads);
    DigitsBelow(p, c, packages, cores);
    DigitsBelow(q, r, packages * cores, threads);
    Assoc(p, cores, threads);
    Distribute(p * cores, c, threads);
    Assoc(r, packages, cores);
  }

  lemma {:induction false} PositionInTree(packages: nat, cores: nat, threads: nat, block: nat, p: nat, c: nat, r: nat)
    requires p < packages && c < cores && r < threads && block == cores * threads
    ensures var ids := Threads(Numbered(packages, cores, threads));
            && |ids| == packages * block && p * block + (c * threads + r) < packages * block
            && ids[p * block + (c * threads + r)] == r * packages * cores + p * cores + c
  {
    var shape := Numbered(packages, cores, threads);
    forall i | 0 <= i < packages ensures |shape[i].Threads()| == block {
      FlattenLength(shape[i].CoreThreads(), threads);
    }
    FlattenAt(shape[p].CoreThreads(), threads, c, r);
    FlattenLength(PackageThreads(shape), block);
    FlattenAt(PackageThreads(shape), block, p, c * threads + r);
    assert shape[p].cores[c].threads[r] == r * packages * cores + p * cores + c;
  }

  lemma Assoc(a: nat, b: nat, c: nat)
    ensures a * (b * c) == a * b * c
  {
  }

  lemma Distribute(a: nat, b: nat, c: nat)
    ensures (a + b) * c == a * c + b * c
  {
  }

  /** The thread at natural position `i` carries the id (i mod T) * (P * C) + i div T. */
  lemma {:induction false} NaturalToOriginal(packages: nat, cores: nat, threads: nat, i: nat)
    requires packages > 0 && cores > 0 && threads > 0 && i < packages * cores * threads
    ensures |Threads(Numbered(packages, cores, threads))| == packages * cores * threads
    ensures Threads(Numbered(packages, cores, threads))[i] == OriginalOf(i, packages * cores, threads)
  {
    DivBelow(i, packages * cores, threads);
    var q := i / threads;
    DivBelow(q, packages, cores);
    PositionOf(packages, cores, threads, q / cores, q % cores, i % threads);
  }

  /** Written to base T and read to base K, a number below K * T comes back. */
  lemma {:induction false} DigitsSwap(k: nat, threads: nat, i: nat)
    requires k > 0 && threads > 0 && i < k * threads
    ensures OriginalOf(i, k, threads) < k * threads && NaturalOf(OriginalOf(i, k, threads), k, threads) == i
  {
    DivBelow(i, k, threads);
    var q, r := i / threads, i % threads;
    DigitsBelow(r, q, threads, k);
    DivMod(r, q, k);
    Commute(threads, k);
  }

  lemma Commute(a: nat, b: nat)
    ensures a * b == b * a
  {
  }

  /** The two numberings are inverse bijections of the numbers below P * C * T. */
  lemma {:induction false} NumberingsInverse(k: nat, threads: nat, i: nat)
    requires k > 0 && threads > 0 && i < k * threads
    ensures OriginalOf(i, k, threads) < k * threads && NaturalOf(OriginalOf(i, k, threads), k, threads) == i
    ensures NaturalOf(i, k, threads) < k * threads && OriginalOf(NaturalOf(i, k, threads), k, threads) == i
  {
    Commute(threads, k);
    DigitsSwap(k, threads, i);
    DigitsSwap(threads, k, i);
  }

  /** Every id below P * C * T is used exactly once, so the tree is well formed. */
  lemma {:induction false} NumberedWellFormed(packages: nat, cores: nat, threads: nat)
    requires packages > 0 && cores > 0 && threads > 0
    ensures WellFormed(Numbered(packages, cores, threads))
    ensures ToSet(Threads(Numbered(packages, cores, threads))) == Below(packages * cores * threads)
  {
    hide OriginalOf, NaturalOf, Flatten;
    var shape := Numbered(packages, cores, threads);
    var k, n := packages * cores, packages * cores * threads;
    PositionOf(packages, cores, threads, 0, 0, 0);
    MulAtLeast(packages, cores);
    var ids := Threads(shape);
    forall i | 0 <= i < n ensures ids[i] < n && NaturalOf(ids[i], k, threads) == i {
      NaturalToOriginal(packages, cores, threads, i);
      NumberingsInverse(k, threads, i);
    }
    DistinctByInverse(ids, k, threads);
    forall id: nat | id < n ensures id in ids {
      NumberingsInverse(k, threads, id);
      NaturalToOriginal(packages, cores, threads, NaturalOf(id, k, threads));
      assert ids[NaturalOf(id, k, threads)] == id;
    }
  }

  lemma DistinctByInverse(ids: seq<nat>, k: nat, threads: nat)
    requires k > 0 && forall i :: 0 <= i < |ids| ==> NaturalOf(ids[i], k, threads) == i
    ensures NoDup(ids)
  {
    forall i, j | 0 <= i < j < |ids| ensures ids[i] != ids[j] {
      assert NaturalOf(ids[i], k, threads) == i && NaturalOf(ids[j], k, threads) == j;
    }
  }
}
