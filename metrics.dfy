/** Segmentation scores from accumulated pixel counts (train.py:307-311,
    417-429). Per batch, `intersectionAndUnionGPU` (util/util.py is not part
    of this model) yields three count vectors indexed by class: pixels
    predicted and labelled c (intersection), pixels predicted or labelled c
    (union) and pixels labelled c (target). The meters add these vectors up,
    and the scores are ratios with 1e-10 added to each denominator. The
    arithmetic is exact (`real`), not floating point. */
module Metrics {
  import opened Common

  /** The counts of one batch, one entry per class. */
  datatype Counts = Counts(inter: seq<nat>, union: seq<nat>, target: seq<nat>)

  predicate WellShaped(c: Counts, classes: nat)
  {
    |c.inter| == classes && |c.union| == classes && |c.target| == classes
  }

  /** The guard added to every denominator. */
  const Eps: real := 0.0000000001

  function Zeros(n: nat): (z: seq<nat>)
    ensures |z| == n && forall k :: 0 <= k < n ==> z[k] == 0
  {
    seq(n, _ => 0)
  }

  /** Elementwise sum of two count vectors of the same length. */
  function AddVec(a: seq<nat>, b: seq<nat>): (c: seq<nat>)
    requires |a| == |b|
    ensures |c| == |a| && forall k :: 0 <= k < |a| ==> c[k] == a[k] + b[k]
  {
    seq(|a|, k requires 0 <= k < |a| => a[k] + b[k])
  }

  /** Every batch of counts has one entry per class. */
  predicate AllShaped(cs: seq<Counts>, classes: nat)
  {
    forall i :: 0 <= i < |cs| ==> WellShaped(cs[i], classes)
  }

  function InterVecs(cs: seq<Counts>): (vs: seq<seq<nat>>)
    ensures |vs| == |cs| && forall i :: 0 <= i < |cs| ==> vs[i] == cs[i].inter
  {
    seq(|cs|, i requires 0 <= i < |cs| => cs[i].inter)
  }

  function UnionVecs(cs: seq<Counts>): (vs: seq<seq<nat>>)
    ensures |vs| == |cs| && forall i :: 0 <= i < |cs| ==> vs[i] == cs[i].union
  {
    seq(|cs|, i requires 0 <= i < |cs| => cs[i].union)
  }

  function TargetVecs(cs: seq<Counts>): (vs: seq<seq<nat>>)
    ensures |vs| == |cs| && forall i :: 0 <= i < |cs| ==> vs[i] == cs[i].target
  {
    seq(|cs|, i requires 0 <= i < |cs| => cs[i].target)
  }

  /** What a meter's `.sum` holds after the vectors `vs` (of length `n`). */
  function SumVecs(vs: seq<seq<nat>>, n: nat): (s: seq<nat>)
    requires forall i :: 0 <= i < |vs| ==> |vs[i]| == n
    ensures |s| == n
  {
    if vs == [] then Zeros(n) else AddVec(SumVecs(vs[..|vs| - 1], n), vs[|vs| - 1])
  }

  /** Entry k of the accumulated vector is the sum of the entries k. */
  lemma {:induction false} SumVecsEntry(vs: seq<seq<nat>>, n: nat, k: nat)
    requires forall i :: 0 <= i < |vs| ==> |vs[i]| == n
    requires k < n
    ensures SumVecs(vs, n)[k] == Sum(seq(|vs|, i requires 0 <= i < |vs| => vs[i][k]))
  {
    if vs != [] {
      var init := vs[..|vs| - 1];
      SumVecsEntry(init, n, k);
      var col := seq(|vs|, i requires 0 <= i < |vs| => vs[i][k]);
      assert col[..|col| - 1] == seq(|init|, i requires 0 <= i < |init| => init[i][k]);
    }
  }

  /** Accumulating in two runs is accumulating once. */
  lemma {:induction false} SumVecsAppend(vs: seq<seq<nat>>, ws: seq<seq<nat>>, n: nat)
    requires forall i :: 0 <= i < |vs| ==> |vs[i]| == n
    requires forall i :: 0 <= i < |ws| ==> |ws[i]| == n
    ensures SumVecs(vs + ws, n) == AddVec(SumVecs(vs, n), SumVecs(ws, n))
  {
    if ws == [] {
      assert vs + ws == vs;
    } else {
      var wi := ws[..|ws| - 1];
      SumVecsAppend(vs, wi, n);
      assert (vs + ws)[..|vs + ws| - 1] == vs + wi;
    }
  }

  function SumReal(xs: seq<real>): real
  {
    if xs == [] then 0.0 else SumReal(xs[..|xs| - 1]) + xs[|xs| - 1]
  }

  /** `np.mean`. */
  function Mean(xs: seq<real>): real
    requires |xs| > 0
  {
    SumReal(xs) / (|xs| as real)
  }

  /** `a / (b + 1e-10)` elementwise. */
  function Ratios(a: seq<nat>, b: seq<nat>): (r: seq<real>)
    requires |a| == |b|
    ensures |r| == |a|
  {
    seq(|a|, k requires 0 <= k < |a| => a[k] as real / (b[k] as real + Eps))
  }

  /** The epoch scores read off the three meters. */
  datatype Scores = Scores(iou: seq<real>, acc: seq<real>, mIoU: real, mAcc: real, allAcc: real)

  function EpochScores(inter: seq<nat>, union: seq<nat>, target: seq<nat>): (s: Scores)
    requires |inter| == |union| == |target| > 0
    ensures |s.iou| == |s.acc| == |inter|
  {
    var iou := Ratios(inter, union);
    var acc := Ratios(inter, target);
    Scores(iou, acc, Mean(iou), Mean(acc), Sum(inter) as real / (Sum(target) as real + Eps))
  }

  /** A ratio of counts with the part no larger than the whole lies in
      [0, 1), and is 0 exactly when the part is 0 (so an empty class scores
      0 rather than NaN). */
  lemma RatioBounds(a: nat, b: nat)
    requires a <= b
    ensures 0.0 <= a as real / (b as real + Eps) < 1.0
    ensures a as real / (b as real + Eps) == 0.0 <==> a == 0
  {
    var d := b as real + Eps;
    var q := a as real / d;
    assert q * d == a as real < d;
  }

  lemma {:induction false} SumRealBounds(xs: seq<real>)
    requires forall k :: 0 <= k < |xs| ==> 0.0 <= xs[k] < 1.0
    ensures 0.0 <= SumReal(xs) && (xs != [] ==> SumReal(xs) < |xs| as real)
  {
    if xs != [] {
      SumRealBounds(xs[..|xs| - 1]);
    }
  }

  /** The mean of scores in [0, 1) lies in [0, 1). */
  lemma MeanBounds(xs: seq<real>)
    requires |xs| > 0
    requires forall k :: 0 <= k < |xs| ==> 0.0 <= xs[k] < 1.0
    ensures 0.0 <= Mean(xs) < 1.0
  {
    SumRealBounds(xs);
    var n := |xs| as real;
    assert Mean(xs) * n == SumReal(xs);
  }

  lemma {:induction false} SumLe(a: seq<nat>, b: seq<nat>)
    requires |a| == |b|
    requires forall k :: 0 <= k < |a| ==> a[k] <= b[k]
    ensures Sum(a) <= Sum(b)
  {
    if a != [] {
      SumLe(a[..|a| - 1], b[..|b| - 1]);
    }
  }

  /** When each intersection is at most the union and the target (as the
      counts of a prediction always are), every score lies in [0, 1). */
  lemma ScoresBounded(inter: seq<nat>, union: seq<nat>, target: seq<nat>)
    requires |inter| == |union| == |target| > 0
    requires forall k :: 0 <= k < |inter| ==> inter[k] <= union[k] && inter[k] <= target[k]
    ensures var s := EpochScores(inter, union, target);
      && 0.0 <= s.mIoU < 1.0 && 0.0 <= s.mAcc < 1.0 && 0.0 <= s.allAcc < 1.0
      && (forall k :: 0 <= k < |inter| ==> 0.0 <= s.iou[k] < 1.0 && 0.0 <= s.acc[k] < 1.0)
  {
    var s := EpochScores(inter, union, target);
    forall k | 0 <= k < |inter| ensures 0.0 <= s.iou[k] < 1.0 && 0.0 <= s.acc[k] < 1.0 {
      RatioBounds(inter[k], union[k]);
      RatioBounds(inter[k], target[k]);
    }
    MeanBounds(s.iou);
    MeanBounds(s.acc);
    SumLe(inter, target);
    RatioBounds(Sum(inter), Sum(target));
  }

  /** No pixels at all gives all-zero scores. */
  lemma {:induction false} SumRealZeros(xs: seq<real>)
    requires forall k :: 0 <= k < |xs| ==> xs[k] == 0.0
    ensures SumReal(xs) == 0.0
  {
    if xs != [] {
      SumRealZeros(xs[..|xs| - 1]);
    }
  }

  lemma {:induction false} SumZeros(xs: seq<nat>)
    requires forall k :: 0 <= k < |xs| ==> xs[k] == 0
    ensures Sum(xs) == 0
  {
    if xs != [] {
      SumZeros(xs[..|xs| - 1]);
    }
  }

  lemma EmptyScores(n: nat)
    requires n > 0
    ensures var s := EpochScores(Zeros(n), Zeros(n), Zeros(n));
      s.mIoU == 0.0 && s.mAcc == 0.0 && s.allAcc == 0.0
  {
    var s := EpochScores(Zeros(n), Zeros(n), Zeros(n));
    SumRealZeros(s.iou);
    SumRealZeros(s.acc);
    SumZeros(Zeros(n));
  }

  /** The mean IoU of `class_miou` (train.py:423-428): the running total
      of the bucket IoUs, divided by the number of buckets. */
  method ClassMeanIoU(ci: seq<nat>, cu: seq<nat>) returns (miou: real)
    requires |ci| == |cu| > 0
    ensures miou == Mean(Ratios(ci, cu))
    ensures (forall k :: 0 <= k < |ci| ==> ci[k] <= cu[k]) ==> 0.0 <= miou < 1.0
  {
    var total := 0.0;
    var i := 0;
    ghost var ious := Ratios(ci, cu);
    while i < |ci|
      invariant 0 <= i <= |ci|
      invariant total == SumReal(ious[..i])
    {
      assert ious[..i + 1][..i] == ious[..i];
      var iou := ci[i] as real / (cu[i] as real + Eps);
      total := total + iou;
      i := i + 1;
    }
    assert ious[..i] == ious;
    miou := total * 1.0 / (|ci| as real);
    if forall k :: 0 <= k < |ci| ==> ci[k] <= cu[k] {
      forall k | 0 <= k < |ci| ensures 0.0 <= ious[k] < 1.0 {
        RatioBounds(ci[k], cu[k]);
      }
      MeanBounds(ious);
    }
  }
}
