/** The bookkeeping of `train` and `main` (train.py:179-207, 219-318): the
    iteration counters, the remaining-time split into hours, minutes and
    seconds, the epoch scores, and the schedule of evaluations with the
    best class mIoU kept so far. The network, the optimizer, logging and
    checkpoint files are not part of this model. */
module Training {
  import opened Common
  import opened Metrics

  /** `max_iter` (train.py:232): iterations over all epochs. */
  function MaxIter(epochs: nat, loaderLen: nat): nat
  {
    epochs * loaderLen
  }

  /** `current_iter` (train.py:237): the 1-based number of batch `i` of
      epoch `epoch` over the whole run. */
  function CurrentIter(epoch: nat, loaderLen: nat, i: nat): nat
  {
    epoch * loaderLen + i + 1
  }

  /** `remain_iter` (train.py:279). */
  function RemainIter(epochs: nat, loaderLen: nat, epoch: nat, i: nat): int
  {
    MaxIter(epochs, loaderLen) - CurrentIter(epoch, loaderLen, i)
  }

  /** Inside the run the remaining count is the number of batches still to
      come: never negative, below `max_iter`, and 0 at the very last batch. */
  lemma RemainIterBounds(epochs: nat, loaderLen: nat, epoch: nat, i: nat)
    requires epoch < epochs && i < loaderLen
    ensures RemainIter(epochs, loaderLen, epoch, i) == (epochs - epoch) * loaderLen - i - 1
    ensures 0 <= RemainIter(epochs, loaderLen, epoch, i) < MaxIter(epochs, loaderLen)
    ensures RemainIter(epochs, loaderLen, epoch, i) == 0 <==> epoch == epochs - 1 && i == loaderLen - 1
  {
    var rest := epochs - epoch;
    assert epochs * loaderLen == epoch * loaderLen + rest * loaderLen;
    assert rest * loaderLen >= loaderLen by {
      MulAtLeast(rest, loaderLen);
    }
    if rest > 1 {
      assert rest * loaderLen >= 2 * loaderLen by {
        MulMonotone(2, rest, loaderLen);
      }
    }
  }

  lemma MulAtLeast(a: nat, b: nat)
    requires a >= 1
    ensures a * b >= b
  {
    MulMonotone(1, a, b);
  }

  /** Each batch lowers the remaining count by exactly one, also across the
      end of an epoch. */
  lemma RemainIterStep(epochs: nat, loaderLen: nat, epoch: nat, i: nat)
    requires i < loaderLen
    ensures i + 1 < loaderLen ==>
      RemainIter(epochs, loaderLen, epoch, i + 1) == RemainIter(epochs, loaderLen, epoch, i) - 1
    ensures i + 1 == loaderLen ==>
      RemainIter(epochs, loaderLen, epoch + 1, 0) == RemainIter(epochs, loaderLen, epoch, i) - 1
  {
    assert (epoch + 1) * loaderLen == epoch * loaderLen + loaderLen;
  }

  /** The two `divmod` calls of train.py:281-282 on a whole number of
      seconds. */
  datatype Clock = Clock(h: nat, m: nat, s: nat)

  function ToClock(total: nat): (c: Clock)
    ensures c.s < 60 && c.m < 60
    ensures c.h * 3600 + c.m * 60 + c.s == total
  {
    var tm := total / 60;
    var ts := total % 60;
    Clock(tm / 60, tm % 60, ts)
  }

  /** The split is the only one with minutes and seconds below 60. */
  lemma ToClockUnique(total: nat, c: Clock)
    requires c.s < 60 && c.m < 60 && c.h * 3600 + c.m * 60 + c.s == total
    ensures ToClock(total) == c
  {
    var tm := c.h * 60 + c.m;
    assert total == tm * 60 + c.s;
    DivModUnique(total, 60, tm, c.s);
    DivModUnique(tm, 60, c.h, c.m);
  }

  /** The meter updates of batch `i` (train.py:268-270). */
  method AddBatch(inter: seq<nat>, union: seq<nat>, target: seq<nat>, batches: seq<Counts>, i: nat, classes: nat)
    returns (inter': seq<nat>, union': seq<nat>, target': seq<nat>)
    requires classes > 0 && AllShaped(batches, classes) && i < |batches|
    requires inter == SumVecs(InterVecs(batches)[..i], classes)
    requires union == SumVecs(UnionVecs(batches)[..i], classes)
    requires target == SumVecs(TargetVecs(batches)[..i], classes)
    ensures inter' == SumVecs(InterVecs(batches)[..i + 1], classes)
    ensures union' == SumVecs(UnionVecs(batches)[..i + 1], classes)
    ensures target' == SumVecs(TargetVecs(batches)[..i + 1], classes)
  {
    ghost var ins, us, ts := InterVecs(batches), UnionVecs(batches), TargetVecs(batches);
    assert ins[..i + 1][..i] == ins[..i] && us[..i + 1][..i] == us[..i] && ts[..i + 1][..i] == ts[..i];
    var b := batches[i];
    inter' := AddVec(inter, b.inter);
    union' := AddVec(union, b.union);
    target' := AddVec(target, b.target);
  }

  /** The epoch loop of `train` (train.py:234-311) over the batches'
      counts: the remaining count after each batch, the three meters, and
      the epoch scores. */
  method TrainEpoch(batches: seq<Counts>, epoch: nat, epochs: nat, classes: nat)
    returns (remains: seq<int>, inter: seq<nat>, union: seq<nat>, target: seq<nat>, scores: Scores)
    requires classes > 0
    requires AllShaped(batches, classes)
    ensures |remains| == |batches|
    ensures forall i :: 0 <= i < |batches| ==> remains[i] == (epochs - epoch) * |batches| - i - 1
    ensures epoch < epochs ==> forall i :: 0 <= i < |batches| ==> remains[i] >= 0
    ensures inter == SumVecs(InterVecs(batches), classes)
    ensures union == SumVecs(UnionVecs(batches), classes)
    ensures target == SumVecs(TargetVecs(batches), classes)
    ensures scores == EpochScores(inter, union, target)
  {
    var len := |batches|;
    var maxIter := epochs * len;
    remains := [];
    inter, union, target := Zeros(classes), Zeros(classes), Zeros(classes);
    ghost var ins := InterVecs(batches);
    ghost var us := UnionVecs(batches);
    ghost var ts := TargetVecs(batches);
    var i := 0;
    while i < len
      invariant 0 <= i <= len && |remains| == i
      invariant forall j :: 0 <= j < i ==> remains[j] == (epochs - epoch) * len - j - 1
      invariant inter == SumVecs(ins[..i], classes)
      invariant union == SumVecs(us[..i], classes)
      invariant target == SumVecs(ts[..i], classes)
    {
      var currentIter := epoch * len + i + 1;
      inter, union, target := AddBatch(inter, union, target, batches, i, classes);
      var remainIter := maxIter - currentIter;
      assert remainIter == (epochs - epoch) * len - i - 1 by {
        assert (epochs - epoch) * len == epochs * len - epoch * len;
      }
      remains := remains + [remainIter];
      i := i + 1;
    }
    assert ins[..i] == ins && us[..i] == us && ts[..i] == ts;
    scores := EpochScores(inter, union, target);
    if epoch < epochs {
      forall j | 0 <= j < len ensures remains[j] >= 0 {
        RemainIterBounds(epochs, len, epoch, j);
      }
    }
  }

  /** Validation runs at epoch `epoch` (train.py:198, with `evaluate` set)
      on even epochs, and on every epoch of a run of at most 50 epochs. */
  predicate Evaluates(epoch: nat, epochs: nat): (b: bool)
    ensures epoch % 2 == 0 ==> b
  {
    epoch % 2 == 0 || (epochs <= 50 && epoch % 1 == 0)
  }

  lemma EvaluatesWhen(epoch: nat, epochs: nat)
    ensures epochs <= 50 ==> Evaluates(epoch, epochs)
    ensures epochs > 50 ==> (Evaluates(epoch, epochs) <==> epoch % 2 == 0)
  {
  }

  /** Is epoch `e` one whose score is looked at? */
  predicate Scored(e: nat, startEpoch: nat, epochs: nat, evaluate: bool)
  {
    startEpoch <= e < epochs && evaluate && Evaluates(e, epochs)
  }

  /** `max_iou` before epoch `e`: 0, raised to each looked-at score that
      beats it. */
  function BestBefore(scores: seq<real>, startEpoch: nat, epochs: nat, evaluate: bool, e: nat): (best: real)
    requires e <= |scores|
    ensures best >= 0.0
  {
    if e == 0 then 0.0
    else
      var best := BestBefore(scores, startEpoch, epochs, evaluate, e - 1);
      if Scored(e - 1, startEpoch, epochs, evaluate) && scores[e - 1] > best then scores[e - 1] else best
  }

  /** `max_iou` is never negative, never decreases, bounds every score
      looked at so far, and is 0 or one of those scores. */
  lemma {:induction false} BestBeforeProperties(scores: seq<real>, startEpoch: nat, epochs: nat, evaluate: bool, e: nat)
    requires e <= |scores|
    ensures BestBefore(scores, startEpoch, epochs, evaluate, e) >= 0.0
    ensures forall d :: 0 <= d < e && Scored(d, startEpoch, epochs, evaluate) ==>
      scores[d] <= BestBefore(scores, startEpoch, epochs, evaluate, e)
    ensures forall d :: 0 <= d <= e ==>
      BestBefore(scores, startEpoch, epochs, evaluate, d) <= BestBefore(scores, startEpoch, epochs, evaluate, e)
    ensures BestBefore(scores, startEpoch, epochs, evaluate, e) == 0.0 ||
      exists d :: 0 <= d < e && Scored(d, startEpoch, epochs, evaluate) &&
        scores[d] == BestBefore(scores, startEpoch, epochs, evaluate, e)
  {
    if e > 0 {
      BestBeforeProperties(scores, startEpoch, epochs, evaluate, e - 1);
    }
  }

  /** The epochs before `e` at which a checkpoint is written: a looked-at
      epoch whose score beats `max_iou` as it stood then. */
  function Saved(scores: seq<real>, startEpoch: nat, epochs: nat, evaluate: bool, e: nat): (saved: seq<nat>)
    requires e <= |scores|
    ensures |saved| <= e
  {
    if e == 0 then []
    else
      var before := Saved(scores, startEpoch, epochs, evaluate, e - 1);
      if Scored(e - 1, startEpoch, epochs, evaluate) && scores[e - 1] > BestBefore(scores, startEpoch, epochs, evaluate, e - 1)
      then before + [e - 1] else before
  }

  /** A checkpoint is written exactly at the looked-at epochs that beat the
      best score before them; they come in increasing order, and the last one
      holds the current `max_iou`. */
  lemma {:induction false} SavedProperties(scores: seq<real>, startEpoch: nat, epochs: nat, evaluate: bool, e: nat)
    requires e <= |scores|
    ensures var saved := Saved(scores, startEpoch, epochs, evaluate, e);
      && (forall d: nat :: d in saved <==>
            d < e && Scored(d, startEpoch, epochs, evaluate) && scores[d] > BestBefore(scores, startEpoch, epochs, evaluate, d))
      && Ascending(saved)
      && (forall k :: 0 <= k < |saved| ==> saved[k] < e)
      && (saved != [] ==> scores[saved[|saved| - 1]] == BestBefore(scores, startEpoch, epochs, evaluate, e))
  {
    SavedMembership(scores, startEpoch, epochs, evaluate, e);
    SavedOrder(scores, startEpoch, epochs, evaluate, e);
  }

  lemma {:induction false} SavedMembership(scores: seq<real>, startEpoch: nat, epochs: nat, evaluate: bool, e: nat)
    requires e <= |scores|
    ensures forall d: nat :: d in Saved(scores, startEpoch, epochs, evaluate, e) <==>
      d < e && Scored(d, startEpoch, epochs, evaluate) && scores[d] > BestBefore(scores, startEpoch, epochs, evaluate, d)
  {
    if e > 0 {
      SavedMembership(scores, startEpoch, epochs, evaluate, e - 1);
    }
  }

  lemma {:induction false} SavedOrder(scores: seq<real>, startEpoch: nat, epochs: nat, evaluate: bool, e: nat)
    requires e <= |scores|
    ensures var saved := Saved(scores, startEpoch, epochs, evaluate, e);
      && Ascending(saved)
      && (forall k :: 0 <= k < |saved| ==> saved[k] < e)
      && (saved != [] ==> scores[saved[|saved| - 1]] == BestBefore(scores, startEpoch, epochs, evaluate, e))
  {
    if e > 0 {
      SavedOrder(scores, startEpoch, epochs, evaluate, e - 1);
    }
  }

  /** The epoch loop of `main` (train.py:179-207): returns the final
      `max_iou` and the epochs at which a checkpoint is saved. */
  method RunEpochs(startEpoch: nat, epochs: nat, evaluate: bool, scores: seq<real>)
    returns (maxIou: real, saved: seq<nat>)
    requires epochs <= |scores|
    ensures maxIou == BestBefore(scores, startEpoch, epochs, evaluate, epochs)
    ensures saved == Saved(scores, startEpoch, epochs, evaluate, epochs)
  {
    maxIou := 0.0;
    saved := [];
    if epochs <= startEpoch {
      BestBeforeZero(scores, startEpoch, epochs, evaluate, epochs);
      return;
    }
    BestBeforeZero(scores, startEpoch, epochs, evaluate, startEpoch);
    var epoch := startEpoch;
    while epoch < epochs
      invariant startEpoch <= epoch <= epochs
      invariant maxIou == BestBefore(scores, startEpoch, epochs, evaluate, epoch)
      invariant saved == Saved(scores, startEpoch, epochs, evaluate, epoch)
    {
      if evaluate && (epoch % 2 == 0 || (epochs <= 50 && epoch % 1 == 0)) {
        var classMiou := scores[epoch];
        if classMiou > maxIou {
          maxIou := classMiou;
          saved := saved + [epoch];
        }
      }
      epoch := epoch + 1;
    }
  }

  /** Nothing is looked at before the first epoch of the run. */
  lemma {:induction false} BestBeforeZero(scores: seq<real>, startEpoch: nat, epochs: nat, evaluate: bool, e: nat)
    requires e <= |scores| && (e <= startEpoch || epochs <= startEpoch)
    ensures BestBefore(scores, startEpoch, epochs, evaluate, e) == 0.0
    ensures Saved(scores, startEpoch, epochs, evaluate, e) == []
  {
    if e > 0 {
      BestBeforeZero(scores, startEpoch, epochs, evaluate, e - 1);
    }
  }
}
