/**
  The report of a changed CPU. The manager takes the new state over and then draws both processors; the drawing has
  two rows for each package, sized by half the average number of threads, and raises where a claimed thread falls
  outside them.
 */
module Reporting {
  import opened Collections
  import opened Topology
  import opened GreedyPlacement
  import opened Numbering
  import opened Processor

  /** `n_cus_per_package // 2`. */
  function RowLength(shape: Shape): nat
    requires |shape| > 0
  {
    |Threads(shape)| / |shape| / 2
  }

  predicate Claimed(pl: Placement, t: nat) { t in pl && pl[t] != {} }

  /** Every claimed thread among the first `n` of the package has a place in one of the two rows. */
  ghost predicate FitsRows(pkg: Package, pl: Placement, rowLength: nat, n: nat) {
    forall j :: 0 <= j < n && j < |pkg.Threads()| && Claimed(pl, pkg.Threads()[j]) ==> j / 2 < rowLength
  }

  ghost predicate Drawable(shape: Shape, pl: Placement)
    requires |shape| > 0
  {
    forall p :: 0 <= p < |shape| ==> FitsRows(shape[p], pl, RowLength(shape), |shape[p].Threads()|)
  }

  /** `__visualize`, as far as it may raise. */
  method Visualize(cpu: Cpu) returns (drawn: bool)
    requires cpu.Valid()
    ensures WellFormed(cpu.shape) && (drawn <==> Drawable(cpu.shape, cpu.State()))
  {
    hide WellFormed, Threads, FitsRows, Cpu.Valid, Cpu.State;
    cpu.ValidKeys();
    var rowLength := RowLength(cpu.shape);
    for p := 0 to |cpu.shape|
      invariant forall q :: 0 <= q < p ==> FitsRows(cpu.shape[q], cpu.State(), rowLength, |cpu.shape[q].Threads()|)
    {
      drawn := DrawPackage(cpu, cpu.shape[p], rowLength);
      if !drawn {
        return;
      }
    }
    drawn := true;
  }

  method DrawPackage(cpu: Cpu, pkg: Package, rowLength: nat) returns (drawn: bool)
    requires cpu.Valid()
    ensures drawn <==> FitsRows(pkg, cpu.State(), rowLength, |pkg.Threads()|)
  {
    hide Cpu.Valid, Cpu.State, FitsRows;
    var j := 0;
    ghost var pl := cpu.State();
    NothingDrawn(pkg, pl, rowLength);
    for c := 0 to |pkg.cores|
      invariant j == |Flatten(pkg.CoreThreads()[..c])|
      invariant FitsRows(pkg, pl, rowLength, j)
    {
      var ts := pkg.cores[c].threads;
      CoreStarts(pkg, c);
      for i := 0 to |ts|
        invariant j == |Flatten(pkg.CoreThreads()[..c])| + i
        invariant FitsRows(pkg, pl, rowLength, j)
      {
        OneMoreDrawn(pkg, pl, rowLength, j);
        if Claimed(cpu.State(), ts[i]) && j / 2 >= rowLength {
          return false;
        }
        j := j + 1;
      }
    }
    WholePrefix(pkg.CoreThreads());
    drawn := true;
  }

  lemma NothingDrawn(pkg: Package, pl: Placement, rowLength: nat)
    ensures FitsRows(pkg, pl, rowLength, 0)
    ensures |Flatten(pkg.CoreThreads()[..0])| == 0
  {
  }

  lemma OneMoreDrawn(pkg: Package, pl: Placement, rowLength: nat, j: nat)
    requires j < |pkg.Threads()| && FitsRows(pkg, pl, rowLength, j)
    ensures FitsRows(pkg, pl, rowLength, j + 1) <==> (Claimed(pl, pkg.Threads()[j]) ==> j / 2 < rowLength)
    ensures !FitsRows(pkg, pl, rowLength, j + 1) ==> !FitsRows(pkg, pl, rowLength, |pkg.Threads()|)
  {
  }

  /** The threads of core `c` follow those of the cores before it. */
  lemma CoreStarts(pkg: Package, c: nat)
    requires c < |pkg.cores|
    ensures var before, ts := Flatten(pkg.CoreThreads()[..c]), pkg.cores[c].threads;
            && |Flatten(pkg.CoreThreads()[..c + 1])| == |before| + |ts|
            && |before| + |ts| <= |pkg.Threads()|
            && forall i :: 0 <= i < |ts| ==> pkg.Threads()[|before| + i] == ts[i]
  {
    var ss := pkg.CoreThreads();
    FlattenConcat(ss[..c], ss[c..]);
    FlattenConcat(ss[..c], [ss[c]]);
    assert ss == ss[..c] + ss[c..] && ss[..c + 1] == ss[..c] + [ss[c]] && ss[c..] == [ss[c]] + ss[c + 1..];
    assert Flatten([ss[c]]) == ss[c] + Flatten([]) == ss[c];
    FlattenConcat([ss[c]], ss[c + 1..]);
  }

  // ---- when the drawing raises ----

  /** Half the average number of threads to a package, over two rows, is how far the claimed threads may reach. */
  lemma DrawableMeans(shape: Shape, pl: Placement)
    requires |shape| > 0
    ensures var rowLength := |Threads(shape)| / |shape| / 2;
            Drawable(shape, pl) <==>
              forall p, j :: 0 <= p < |shape| && 0 <= j < |shape[p].Threads()| ==>
                var t := shape[p].Threads()[j];
                t in pl && pl[t] != {} ==> j < 2 * rowLength
  {
    hide Threads;
    assert forall j: nat {:trigger j / 2} :: j / 2 < RowLength(shape) <==> j < 2 * RowLength(shape);
  }


  /** Packages of `block` threads each are drawn unless `block` is odd and the last thread of one is claimed. */
  lemma UniformDrawableIff(shape: Shape, pl: Placement, block: nat)
    requires |shape| > 0 && block > 0 && forall p :: 0 <= p < |shape| ==> |shape[p].Threads()| == block
    ensures Drawable(shape, pl) <==>
            block % 2 == 0 || forall p :: 0 <= p < |shape| ==> !Claimed(pl, shape[p].Threads()[block - 1])
  {
    FlattenLength(PackageThreads(shape), block);
    DivMod(block, 0, |shape|);
    Commute(block, |shape|);
    assert RowLength(shape) == block / 2;
    forall p | 0 <= p < |shape|
      ensures FitsRows(shape[p], pl, block / 2, block) <==>
              block % 2 == 0 || !Claimed(pl, shape[p].Threads()[block - 1])
    {
      LastOutside(shape[p], pl, block);
    }
  }

  lemma LastOutside(pkg: Package, pl: Placement, block: nat)
    requires |pkg.Threads()| == block > 0
    ensures FitsRows(pkg, pl, block / 2, block) <==> block % 2 == 0 || !Claimed(pl, pkg.Threads()[block - 1])
  {
    forall j | 0 <= j < block ensures j / 2 < block / 2 <==> block % 2 == 0 || j < block - 1 {
    }
  }

  /** For the processors the program builds: the numbers of cores and of threads to a core are both odd. */
  lemma {:induction false} NumberedDrawableIff(packages: nat, cores: nat, threads: nat, pl: Placement)
    requires packages > 0 && cores > 0 && threads > 0
    ensures var shape := Numbered(packages, cores, threads);
            && (forall p :: 0 <= p < packages ==> |shape[p].Threads()| == cores * threads > 0)
            && (Drawable(shape, pl) <==>
                  (cores * threads) % 2 == 0
                  || forall p :: 0 <= p < packages ==> !Claimed(pl, shape[p].Threads()[cores * threads - 1]))
  {
    var shape := Numbered(packages, cores, threads);
    MulAtLeast(cores, threads);
    forall p | 0 <= p < packages ensures |shape[p].Threads()| == cores * threads {
      FlattenLength(shape[p].CoreThreads(), threads);
    }
    UniformDrawableIff(shape, pl, cores * threads);
  }

  /** The report raises: the CPU has changed and was or is one that cannot be drawn. */
  ghost predicate ReportRaises(shape: Shape, before: Placement, after: Placement)
    requires |shape| > 0
  {
    before != after && !(Drawable(shape, before) && Drawable(shape, after))
  }

  /** A processor with a single thread: the first workload placed on it is enough. */
  lemma SingleThreadRaises(pl: Placement, w: Workload)
    requires Covers(Numbered(1, 1, 1), pl) && AllEmpty(pl) && w.count == 1
    ensures WellFormed(Numbered(1, 1, 1))
    ensures var out := GreedyIsolate(Numbered(1, 1, 1), pl, [w]);
            out.Placed? && ReportRaises(Numbered(1, 1, 1), pl, out.pl)
  {
    var shape := Numbered(1, 1, 1);
    NumberedWellFormed(1, 1, 1);
    hide WellFormed, GreedyIsolate, Numbered, Drawable;
    assert Total([w]) == 1 by { assert [w][..0] == []; }
    assert |shape| == 1 && |Threads(shape)| == 1 && |shape[0].Threads()| == 1 by { OneThread(); }
    GreedyExact(shape, pl, [w]);
    var out := GreedyIsolate(shape, pl, [w]);
    assert [w][0] == w && |HeldBy(out.pl, w.id)| == 1;
    var t :| t in HeldBy(out.pl, w.id);
    OnlyThread(shape, out.pl, t);
    NumberedDrawableIff(1, 1, 1, out.pl);
  }

  lemma OneThread()
    ensures |Numbered(1, 1, 1)| == 1 && |Numbered(1, 1, 1)[0].Threads()| == 1 && |Threads(Numbered(1, 1, 1))| == 1
  {
    PositionOf(1, 1, 1, 0, 0, 0);
    FlattenLength(Numbered(1, 1, 1)[0].CoreThreads(), 1);
  }

  lemma OnlyThread(shape: Shape, pl: Placement, t: nat)
    requires |shape| == 1 && |shape[0].Threads()| == 1 && Covers(shape, pl) && t in pl
    ensures shape[0].Threads()[0] == t
  {
    assert t in ToSet(Threads(shape));
    var p := ThreadPackage(shape, t);
  }
}
