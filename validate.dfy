/** The counting side of `validate` (train.py:320-429): how many evaluation
    batches are processed, how the foreground counts are grouped per episode
    class, and the scores computed from them. The network, the loss and the
    label resizing are not part of this model; each batch is given as its
    count vectors and the rank `subcls` of its first episode's chosen class. */
module Validation {
  import opened Common
  import opened Metrics
  import ClassSplit

  /** One evaluation batch. */
  datatype Batch = Batch(counts: Counts, subcls: int)

  /** The number of per-class buckets: one per novel class of a fold. */
  function SplitGap(useCoco: bool): (gap: nat)
    ensures gap > 0
  {
    if useCoco then 20 else 5
  }

  /** There is one bucket per novel class, whichever fold and COCO layout
      the class table uses. */
  lemma SplitGapCountsNovel(fold: int, useCoco: bool, useSplitCoco: bool)
    requires ClassSplit.IsFold(fold)
    ensures |ClassSplit.SplitClasses(fold, useCoco, useSplitCoco).subValList| == SplitGap(useCoco)
  {
    if !useCoco { ClassSplit.PascalPartition(fold); }
    else if useSplitCoco { ClassSplit.SplitCocoPartition(fold); }
    else { ClassSplit.CocoPartition(fold); }
  }

  /** The number of query images to evaluate (train.py:348-354); for split
      999 it is the length of the loader. Otherwise each bucket, that is
      each novel class, gets 1000 episodes. */
  function TestNum(split: int, useCoco: bool, loaderLen: nat): (n: nat)
    ensures split != 999 ==> n == 1000 * SplitGap(useCoco)
    ensures split == 999 ==> n == loaderLen
  {
    if split != 999 then (if useCoco then 20000 else 5000) else loaderLen
  }

  /** The bucket a batch's counts go to: Python's `(subcls - 1) % gap`,
      which is never negative for a positive `gap` (Dafny's `%` agrees). */
  function BucketOf(subcls: int, gap: nat): (b: nat)
    requires gap > 0
    ensures b < gap
  {
    (subcls - 1) % gap
  }

  /** Ranks are 0-based, so rank r goes to bucket r - 1 and rank 0 wraps
      around to the last bucket; ranks 0 .. gap-1 fill every bucket once. */
  lemma BucketOfRanks(gap: nat)
    requires gap > 0
    ensures BucketOf(0, gap) == gap - 1
    ensures forall r :: 1 <= r <= gap ==> BucketOf(r, gap) == r - 1
    ensures forall r, s :: 0 <= r < gap && 0 <= s < gap && BucketOf(r, gap) == BucketOf(s, gap) ==> r == s
  {
  }

  /** The per-bucket sums of foreground intersection (`which` false) or
      union (`which` true) after the batches `bs`. */
  function ClassSums(bs: seq<Batch>, gap: nat, which: bool): (s: seq<nat>)
    requires gap > 0
    requires forall i :: 0 <= i < |bs| ==> |bs[i].counts.inter| > 1 && |bs[i].counts.union| > 1
    ensures |s| == gap
  {
    if bs == [] then Zeros(gap)
    else
      var b := bs[|bs| - 1];
      var s0 := ClassSums(bs[..|bs| - 1], gap, which);
      var k := BucketOf(b.subcls, gap);
      s0[k := s0[k] + (if which then b.counts.union[1] else b.counts.inter[1])]
  }

  /** The foreground entries of the batches, in order. */
  function Foreground(bs: seq<Batch>, which: bool): (f: seq<nat>)
    requires forall i :: 0 <= i < |bs| ==> |bs[i].counts.inter| > 1 && |bs[i].counts.union| > 1
    ensures |f| == |bs|
  {
    seq(|bs|, i requires 0 <= i < |bs| => if which then bs[i].counts.union[1] else bs[i].counts.inter[1])
  }

  /** The buckets only regroup the foreground counts: together they hold
      exactly the foreground total. */
  lemma {:induction false} ClassSumsConserve(bs: seq<Batch>, gap: nat, which: bool)
    requires gap > 0
    requires forall i :: 0 <= i < |bs| ==> |bs[i].counts.inter| > 1 && |bs[i].counts.union| > 1
    ensures Sum(ClassSums(bs, gap, which)) == Sum(Foreground(bs, which))
  {
    if bs == [] {
      SumZeros(Zeros(gap));
    } else {
      var init := bs[..|bs| - 1];
      var b := bs[|bs| - 1];
      ClassSumsConserve(init, gap, which);
      var s0 := ClassSums(init, gap, which);
      var k := BucketOf(b.subcls, gap);
      var x := if which then b.counts.union[1] else b.counts.inter[1];
      SumUpdate(s0, k, x);
      assert Foreground(bs, which)[..|bs| - 1] == Foreground(init, which);
    }
  }

  /** A bucket no batch maps to stays 0. */
  lemma {:induction false} ClassSumsUntouched(bs: seq<Batch>, gap: nat, which: bool, k: nat)
    requires gap > 0 && k < gap
    requires forall i :: 0 <= i < |bs| ==> |bs[i].counts.inter| > 1 && |bs[i].counts.union| > 1
    requires forall i :: 0 <= i < |bs| ==> BucketOf(bs[i].subcls, gap) != k
    ensures ClassSums(bs, gap, which)[k] == 0
  {
    if bs != [] {
      ClassSumsUntouched(bs[..|bs| - 1], gap, which, k);
    }
  }

  lemma {:induction false} SumUpdate(s: seq<nat>, k: nat, x: nat)
    requires k < |s|
    ensures Sum(s[k := s[k] + x]) == Sum(s) + x
  {
    var n := |s| - 1;
    if k < n {
      SumUpdate(s[..n], k, x);
      assert s[k := s[k] + x][..n] == s[..n][k := s[k] + x];
    } else {
      assert s[k := s[k] + x][..n] == s[..n];
    }
  }

  /** The batches of all passes, in the order they are visited. */
  function Flatten(passes: seq<seq<Batch>>): seq<Batch>
  {
    if passes == [] then [] else Flatten(passes[..|passes| - 1]) + passes[|passes| - 1]
  }

  lemma {:induction false} FlattenLength(passes: seq<seq<Batch>>, len: nat)
    requires forall e :: 0 <= e < |passes| ==> |passes[e]| == len
    ensures |Flatten(passes)| == |passes| * len
  {
    if passes != [] {
      var init := passes[..|passes| - 1];
      FlattenLength(init, len);
      assert |passes| * len == |init| * len + len;
    }
  }

  /** The stopping test at train.py:361: with `testNum` a multiple of the
      batch size, batch number `n` (0-based) is processed exactly when
      `n <= testNum / bsv`. */
  lemma StopRule(n: nat, testNum: nat, bsv: nat)
    requires bsv > 0 && testNum % bsv == 0
    ensures (n - 1) * bsv >= testNum <==> n >= testNum / bsv + 1
  {
    var q := testNum / bsv;
    assert testNum == q * bsv;
    if n >= q + 1 {
      assert (n - 1) * bsv >= q * bsv by {
        MulMonotone(q, n - 1, bsv);
      }
    } else {
      assert (n - 1) * bsv < q * bsv by {
        MulMonotone(n, q, bsv);
      }
    }
  }

  /** `k` full batches of `bsv` episodes. */
  function FullBatches(k: nat, bsv: nat): (s: seq<nat>)
    ensures |s| == k && Sum(s) == k * bsv
    ensures forall i :: 0 <= i < k ==> s[i] == bsv
  {
    if k == 0 then [] else
      var s := FullBatches(k - 1, bsv) + [bsv];
      assert s[..k - 1] == FullBatches(k - 1, bsv);
      s
  }

  /** The batch sizes of one pass of the validation loader over `dataLen`
      episodes (train.py:174-175): `DataLoader` without `drop_last` yields
      full batches of `bsv` and keeps a short last batch, so the loader has
      `ceil(dataLen / bsv)` batches (`LoaderLength`). */
  function LoaderBatches(dataLen: nat, bsv: nat): (s: seq<nat>)
    requires bsv > 0
    ensures Sum(s) == dataLen
    ensures forall i :: 0 <= i < |s| ==> 0 < s[i] <= bsv
    ensures forall i :: 0 <= i < |s| - 1 ==> s[i] == bsv
    ensures |s| > 0 ==> (s[|s| - 1] == bsv <==> dataLen % bsv == 0)
  {
    var q, r := dataLen / bsv, dataLen % bsv;
    var full := FullBatches(q, bsv);
    var s := if r == 0 then full else full + [r];
    assert dataLen == q * bsv + r;
    assert s[..q] == full;
    s
  }

  /** `len(val_loader)`: the number of episodes divided by the batch size,
      rounded up. */
  lemma LoaderLength(dataLen: nat, bsv: nat)
    requires bsv > 0
    ensures |LoaderBatches(dataLen, bsv)| == (dataLen + bsv - 1) / bsv
  {
    CeilDiv(dataLen, bsv);
  }

  /** `(x + b - 1) / b` rounds `x / b` up. */
  lemma CeilDiv(x: nat, b: nat)
    requires b > 0
    ensures (x + b - 1) / b == x / b + (if x % b == 0 then 0 else 1)
  {
    var q, r := x / b, x % b;
    assert x == q * b + r;
    if r == 0 {
      DivModUnique(x + b - 1, b, q, b - 1);
    } else {
      assert x + b - 1 == (q + 1) * b + (r - 1);
      DivModUnique(x + b - 1, b, q + 1, r - 1);
    }
  }

  /** The batches of `passes` passes over the same loader, in order. */
  function Repeat(s: seq<nat>, passes: nat): (r: seq<nat>)
    ensures |r| == passes * |s|
    ensures forall x :: x in r ==> x in s
  {
    if passes == 0 then [] else s + Repeat(s, passes - 1)
  }

  /** Sizes of at most `b` sum to at most `|t| * b`, and to exactly that
      when every size is `b`. */
  lemma {:induction false} SumAtMost(t: seq<nat>, b: nat)
    requires forall i :: 0 <= i < |t| ==> t[i] <= b
    ensures Sum(t) <= |t| * b
    ensures Sum(t) == |t| * b <==> forall i :: 0 <= i < |t| ==> t[i] == b
  {
    if t != [] {
      var init := t[..|t| - 1];
      SumAtMost(init, b);
      assert |t| * b == |init| * b + b;
      if Sum(t) == |t| * b {
        forall i | 0 <= i < |t| ensures t[i] == b {
          if i < |init| { assert t[i] == init[i]; }
        }
      }
    }
  }

  /** No batch of the passes holds more than `bsv` episodes. */
  lemma BatchesAtMost(dataLen: nat, bsv: nat)
    requires bsv > 0
    ensures forall i :: 0 <= i < |Repeat(LoaderBatches(dataLen, bsv), 10)| ==>
      Repeat(LoaderBatches(dataLen, bsv), 10)[i] <= bsv
  {
    var pass := LoaderBatches(dataLen, bsv);
    forall i | 0 <= i < |Repeat(pass, 10)| ensures Repeat(pass, 10)[i] <= bsv {
      assert Repeat(pass, 10)[i] in pass;
    }
  }

  /** The first `n` batches of the passes are all full exactly when the
      loader has no short batch or they stop before the end of the first
      pass. */
  lemma {:induction false} PrefixFull(dataLen: nat, bsv: nat, n: nat)
    requires bsv > 0
    requires n <= 10 * |LoaderBatches(dataLen, bsv)|
    ensures var pass := LoaderBatches(dataLen, bsv);
      (dataLen % bsv == 0 || n < |pass|) ==> forall i :: 0 <= i < n ==> Repeat(pass, 10)[i] == bsv
    ensures var pass := LoaderBatches(dataLen, bsv);
      !(dataLen % bsv == 0 || n < |pass|) ==> 0 < |pass| <= n && Repeat(pass, 10)[|pass| - 1] < bsv
  {
    var pass := LoaderBatches(dataLen, bsv);
    var sizes := Repeat(pass, 10);
    assert sizes[..|pass|] == pass;
    if dataLen % bsv == 0 {
      forall i | 0 <= i < n ensures sizes[i] == bsv {
        assert sizes[i] in pass;
      }
    } else if n < |pass| {
      forall i | 0 <= i < n ensures sizes[i] == bsv {
        assert sizes[i] == pass[i];
      }
    } else {
      assert dataLen != 0 && pass != [];
      assert sizes[|pass| - 1] == pass[|pass| - 1];
    }
  }

  /** The sizes of the batches the ten passes over `pass` evaluate when the
      stopping test lets `stop` batches through: fewer if the ten passes run
      out first. */
  function EvaluatedBatches(stop: nat, pass: seq<nat>): (t: seq<nat>)
    ensures |t| == Min(stop, 10 * |pass|)
  {
    Repeat(pass, 10)[..Min(stop, 10 * |pass|)]
  }

  /** The first `n` batches hold at most `bsv` episodes each, and exactly
      `n * bsv` iff no short batch is among them. */
  lemma PrefixSum(dataLen: nat, bsv: nat, n: nat)
    requires bsv > 0
    requires n <= 10 * |LoaderBatches(dataLen, bsv)|
    ensures var t := Repeat(LoaderBatches(dataLen, bsv), 10)[..n];
      && Sum(t) <= n * bsv
      && (Sum(t) == n * bsv <==> (dataLen % bsv == 0 || n < |LoaderBatches(dataLen, bsv)|))
  {
    var t := Repeat(LoaderBatches(dataLen, bsv), 10)[..n];
    BatchesAtMost(dataLen, bsv);
    SumAtMost(t, bsv);
    PrefixFull(dataLen, bsv, n);
  }

  /** The episodes the ten passes evaluate. Each evaluated batch holds at
      most `bsv` episodes; all of them hold exactly `bsv` iff none is the
      short last batch of a pass; and with enough passes the evaluated
      batches make `testNum + bsv` episode slots, one batch more than
      `testNum` needs. */
  lemma EvaluatedSamples(testNum: nat, bsv: nat, dataLen: nat)
    requires bsv > 0 && testNum % bsv == 0
    ensures var t := EvaluatedBatches(testNum / bsv + 1, LoaderBatches(dataLen, bsv));
      && Sum(t) <= |t| * bsv
      && (Sum(t) == |t| * bsv <==> (dataLen % bsv == 0 || |t| < |LoaderBatches(dataLen, bsv)|))
      && (testNum / bsv + 1 <= 10 * |LoaderBatches(dataLen, bsv)| ==> |t| * bsv == testNum + bsv)
  {
    var t := EvaluatedBatches(testNum / bsv + 1, LoaderBatches(dataLen, bsv));
    assert t == Repeat(LoaderBatches(dataLen, bsv), 10)[..|t|];
    PrefixSum(dataLen, bsv, |t|);
    OneBatchMore(testNum, bsv);
  }

  lemma OneBatchMore(testNum: nat, bsv: nat)
    requires bsv > 0 && testNum % bsv == 0
    ensures (testNum / bsv + 1) * bsv == testNum + bsv
  {
    var q := testNum / bsv;
    assert testNum == q * bsv;
    assert (q + 1) * bsv == q * bsv + bsv;
  }

  datatype ValError = TestNumNotDivisible   // the assert at train.py:355

  /** What `validate` computes and returns. */
  datatype ValResult = ValResult(
    iterNum: nat,
    inter: seq<nat>, union: seq<nat>, target: seq<nat>,
    classInter: seq<nat>, classUnion: seq<nat>,
    scores: Scores, classMIoU: real)

  predicate WellFormedBatches(passes: seq<seq<Batch>>, classes: nat)
  {
    forall e, i :: 0 <= e < |passes| && 0 <= i < |passes[e]| ==> WellShaped(passes[e][i].counts, classes)
  }

  function Inters(bs: seq<Batch>): (vs: seq<seq<nat>>)
    ensures |vs| == |bs| && forall i :: 0 <= i < |bs| ==> vs[i] == bs[i].counts.inter
  {
    seq(|bs|, i requires 0 <= i < |bs| => bs[i].counts.inter)
  }

  function Unions(bs: seq<Batch>): (vs: seq<seq<nat>>)
    ensures |vs| == |bs| && forall i :: 0 <= i < |bs| ==> vs[i] == bs[i].counts.union
  {
    seq(|bs|, i requires 0 <= i < |bs| => bs[i].counts.union)
  }

  function Targets(bs: seq<Batch>): (vs: seq<seq<nat>>)
    ensures |vs| == |bs| && forall i :: 0 <= i < |bs| ==> vs[i] == bs[i].counts.target
  {
    seq(|bs|, i requires 0 <= i < |bs| => bs[i].counts.target)
  }

  predicate Shaped(bs: seq<Batch>, classes: nat)
  {
    forall i :: 0 <= i < |bs| ==> WellShaped(bs[i].counts, classes)
  }

  lemma {:induction false} FlattenShaped(passes: seq<seq<Batch>>, classes: nat)
    requires WellFormedBatches(passes, classes)
    ensures Shaped(Flatten(passes), classes)
  {
    if passes != [] {
      var init := passes[..|passes| - 1];
      FlattenShaped(init, classes);
    }
  }

  /** The three meters and the two per-class lists. */
  datatype Meters = Meters(inter: seq<nat>, union: seq<nat>, target: seq<nat>,
                           classInter: seq<nat>, classUnion: seq<nat>)

  /** The meters after the batches `bs`. */
  function Accumulated(bs: seq<Batch>, classes: nat, gap: nat): Meters
    requires classes > 1 && gap > 0 && Shaped(bs, classes)
  {
    Meters(SumVecs(Inters(bs), classes), SumVecs(Unions(bs), classes), SumVecs(Targets(bs), classes),
           ClassSums(bs, gap, false), ClassSums(bs, gap, true))
  }

  /** One more batch adds its vectors to the meters and its foreground
      counts to its bucket. */
  lemma AccumulateStep(done: seq<Batch>, b: Batch, classes: nat, gap: nat)
    requires classes > 1 && gap > 0 && Shaped(done, classes) && WellShaped(b.counts, classes)
    ensures Shaped(done + [b], classes)
    ensures var m := Accumulated(done, classes, gap);
      var k := BucketOf(b.subcls, gap);
      Accumulated(done + [b], classes, gap) ==
        Meters(AddVec(m.inter, b.counts.inter), AddVec(m.union, b.counts.union), AddVec(m.target, b.counts.target),
               m.classInter[k := m.classInter[k] + b.counts.inter[1]],
               m.classUnion[k := m.classUnion[k] + b.counts.union[1]])
  {
    var d := done + [b];
    assert d[..|d| - 1] == done;
    assert Inters(d)[..|done|] == Inters(done);
    assert Unions(d)[..|done|] == Unions(done);
    assert Targets(d)[..|done|] == Targets(done);
  }

  /** The meter updates of batch `n` of the batches `all` (train.py:395-400). */
  method Update(m: Meters, b: Batch, ghost all: seq<Batch>, ghost n: nat, classes: nat, gap: nat) returns (m': Meters)
    requires classes > 1 && gap > 0 && n < |all| && b == all[n] && Shaped(all, classes)
    requires m == Accumulated(all[..n], classes, gap)
    ensures m' == Accumulated(all[..n + 1], classes, gap)
  {
    assert all[..n + 1] == all[..n] + [b];
    AccumulateStep(all[..n], b, classes, gap);
    var k := BucketOf(b.subcls, gap);
    m' := Meters(AddVec(m.inter, b.counts.inter), AddVec(m.union, b.counts.union),
                 AddVec(m.target, b.counts.target),
                 m.classInter[k := m.classInter[k] + b.counts.inter[1]],
                 m.classUnion[k := m.classUnion[k] + b.counts.union[1]]);
  }

  /** One pass over the loader (the inner loop of train.py:359-403): process
      batches until the stopping test fires, then skip the rest of the pass.
      `before` are the batches of the earlier passes. */
  method EvalPass(pass: seq<Batch>, ghost before: seq<Batch>, iterNum: nat, m: Meters,
                  testNum: nat, bsv: nat, classes: nat, gap: nat)
    returns (iterNum': nat, m': Meters)
    requires bsv > 0 && testNum % bsv == 0 && classes > 1 && gap > 0
    requires Shaped(before + pass, classes)
    requires iterNum == Min(testNum / bsv + 1, |before|)
    requires m == Accumulated((before + pass)[..iterNum], classes, gap)
    ensures iterNum' == Min(testNum / bsv + 1, |before| + |pass|)
    ensures m' == Accumulated((before + pass)[..iterNum'], classes, gap)
  {
    var all := before + pass;
    iterNum', m' := iterNum, m;
    var i := 0;
    while i < |pass|
      invariant 0 <= i <= |pass|
      invariant iterNum' == Min(testNum / bsv + 1, |before| + i)
      invariant m' == Accumulated(all[..iterNum'], classes, gap)
    {
      StopRule(iterNum', testNum, bsv);
      if (iterNum' - 1) * bsv >= testNum {
        break;
      }
      m' := Update(m', pass[i], all, iterNum', classes, gap);
      iterNum' := iterNum' + 1;
      i := i + 1;
    }
  }

  lemma PassStep(passes: seq<seq<Batch>>, e: nat, n: nat, classes: nat)
    requires e < |passes| && WellFormedBatches(passes, classes)
    requires n <= |Flatten(passes[..e])|
    ensures Flatten(passes[..e + 1]) == Flatten(passes[..e]) + passes[e]
    ensures (Flatten(passes[..e]) + passes[e])[..n] == Flatten(passes[..e])[..n]
    ensures Shaped(Flatten(passes[..e]) + passes[e], classes)
  {
    assert passes[..e + 1][..e] == passes[..e];
    FlattenShaped(passes[..e + 1], classes);
  }

  /** The ten passes of train.py:357-403: the number of batches evaluated
      and the meters after them. */
  method EvalPasses(passes: seq<seq<Batch>>, loaderLen: nat, testNum: nat, bsv: nat, classes: nat, gap: nat)
    returns (iterNum: nat, m: Meters)
    requires |passes| == 10 && forall e :: 0 <= e < 10 ==> |passes[e]| == loaderLen
    requires bsv > 0 && testNum % bsv == 0 && classes > 1 && gap > 0
    requires WellFormedBatches(passes, classes)
    ensures |Flatten(passes)| == 10 * loaderLen && Shaped(Flatten(passes), classes)
    ensures iterNum == Min(testNum / bsv + 1, 10 * loaderLen)
    ensures m == Accumulated(Flatten(passes)[..iterNum], classes, gap)
  {
    FlattenShaped(passes, classes);
    FlattenLength(passes, loaderLen);
    m := Meters(Zeros(classes), Zeros(classes), Zeros(classes), Zeros(gap), Zeros(gap));
    iterNum := 0;
    for e := 0 to 10
      invariant iterNum == Min(testNum / bsv + 1, |Flatten(passes[..e])|)
      invariant Shaped(Flatten(passes[..e]), classes)
      invariant m == Accumulated(Flatten(passes[..e])[..iterNum], classes, gap)
    {
      ghost var before := Flatten(passes[..e]);
      PassStep(passes, e, iterNum, classes);
      iterNum, m := EvalPass(passes[e], before, iterNum, m, testNum, bsv, classes, gap);
    }
    assert passes[..10] == passes;
  }

  /** `validate(val_loader, ...)` over ten passes of a loader of
      `loaderLen` batches; `passes[e]` is what the loader yields in pass `e`
      (the episodes are random, so passes differ). */
  method Validate(passes: seq<seq<Batch>>, loaderLen: nat, split: int, useCoco: bool, bsv: nat, classes: nat)
    returns (r: Result<ValResult, ValError>)
    requires |passes| == 10 && forall e :: 0 <= e < 10 ==> |passes[e]| == loaderLen
    requires bsv > 0 && classes > 1
    requires WellFormedBatches(passes, classes)
    ensures TestNum(split, useCoco, loaderLen) % bsv != 0 <==> r == Err(TestNumNotDivisible)
    ensures r.Ok? ==>
      var v := r.value;
      var n := Min(TestNum(split, useCoco, loaderLen) / bsv + 1, 10 * loaderLen);
      && |Flatten(passes)| == 10 * loaderLen
      && v.iterNum == n
      && Shaped(Flatten(passes)[..n], classes)
      && Meters(v.inter, v.union, v.target, v.classInter, v.classUnion) ==
           Accumulated(Flatten(passes)[..n], classes, SplitGap(useCoco))
      && v.scores == EpochScores(v.inter, v.union, v.target)
      && v.classMIoU == Mean(Ratios(v.classInter, v.classUnion))
  {
    var gap := SplitGap(useCoco);
    var testNum := TestNum(split, useCoco, loaderLen);
    if testNum % bsv != 0 {
      return Err(TestNumNotDivisible);
    }
    var iterNum, m := EvalPasses(passes, loaderLen, testNum, bsv, classes, gap);
    var miou := ClassMeanIoU(m.classInter, m.classUnion);
    return Ok(ValResult(iterNum, m.inter, m.union, m.target, m.classInter, m.classUnion,
                        EpochScores(m.inter, m.union, m.target), miou));
  }
}
