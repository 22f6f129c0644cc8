/** The base/novel class table of `SemData.__init__` (util/dataset.py:100-145):
    for a fold index and the COCO flags, the classes trained on (`sub_list`)
    and the classes held out for evaluation (`sub_val_list`). */
module ClassSplit {
  import opened Common

  datatype Split = Split(classList: seq<int>, subList: seq<int>, subValList: seq<int>)

  /** The folds that have a branch in the table. Any other fold leaves
      `sub_list` unset and `__init__` fails when it prints it. */
  predicate IsFold(fold: int)
  {
    0 <= fold <= 3
  }

  /** PASCAL-5i: 20 classes, five consecutive novel ids per fold. */
  function PascalSplit(fold: int): (s: Split)
    requires IsFold(fold)
    ensures s.classList == Range(1, 21)
    ensures s.subValList == Range(5 * fold + 1, 5 * fold + 6)
  {
    var all := Range(1, 21);
    if fold == 3 then Split(all, Range(1, 16), Range(16, 21))
    else if fold == 2 then Split(all, Range(1, 11) + Range(16, 21), Range(11, 16))
    else if fold == 1 then Split(all, Range(1, 6) + Range(11, 21), Range(6, 11))
    else Split(all, Range(6, 21), Range(1, 6))
  }

  /** COCO-20i with dense folds: 80 classes, twenty consecutive novel ids. */
  function CocoSplit(fold: int): (s: Split)
    requires IsFold(fold)
    ensures s.classList == Range(1, 81)
    ensures s.subValList == Range(20 * fold + 1, 20 * fold + 21)
  {
    var all := Range(1, 81);
    if fold == 3 then Split(all, Range(1, 61), Range(61, 81))
    else if fold == 2 then Split(all, Range(1, 41) + Range(61, 81), Range(41, 61))
    else if fold == 1 then Split(all, Range(1, 21) + Range(41, 81), Range(21, 41))
    else Split(all, Range(21, 81), Range(1, 21))
  }

  /** COCO-20i with interleaved folds (`use_split_coco`): every fourth id is
      novel. `sub_list` is `list(set(class_list) - set(sub_val_list))`; a
      CPython set of small non-negative ints iterates in ascending order, so
      it is the ascending complement. */
  function SplitCocoSplit(fold: int): (s: Split)
    requires IsFold(fold)
    ensures s.classList == Range(1, 81)
    ensures |s.subValList| == 20
  {
    var all := Range(1, 81);
    var valList :=
      if fold == 3 then RangeBy4(4, 81)
      else if fold == 2 then RangeBy4(3, 80)
      else if fold == 1 then RangeBy4(2, 79)
      else RangeBy4(1, 78);
    Split(all, Without(all, valList), valList)
  }

  /** The whole table; `use_split_coco` only matters when `use_coco` is set. */
  function SplitClasses(fold: int, useCoco: bool, useSplitCoco: bool): (s: Split)
    requires IsFold(fold)
    ensures s.classList == Range(1, if useCoco then 81 else 21)
  {
    if !useCoco then PascalSplit(fold)
    else if useSplitCoco then SplitCocoSplit(fold)
    else CocoSplit(fold)
  }

  /** The properties every split has: both lists are free of duplicates and
      non-empty, they are disjoint, and together they are the class list. */
  ghost predicate IsPartition(s: Split)
  {
    && Distinct(s.subList) && Distinct(s.subValList)
    && |s.subList| > 0 && |s.subValList| > 0
    && (forall c :: c in s.subList ==> c !in s.subValList)
    && (forall c :: c in s.classList <==> c in s.subList || c in s.subValList)
  }

  lemma {:induction false} RangeConcatAscending(a: int, b: int, c: int, d: int)
    requires a <= b <= c <= d
    ensures Ascending(Range(a, b) + Range(c, d))
  {
    var s := Range(a, b) + Range(c, d);
    forall i, j | 0 <= i < j < |s| ensures s[i] < s[j] {
      if j < |Range(a, b)| {
      } else if i < |Range(a, b)| {
        assert s[i] == a + i && s[j] == c + (j - (b - a));
      } else {
      }
    }
  }

  /** The split that holds out the consecutive ids lo .. hi-1 of 1..n. */
  function HoldOut(n: int, lo: int, hi: int): Split
  {
    Split(Range(1, n + 1), Range(1, lo) + Range(hi, n + 1), Range(lo, hi))
  }

  lemma {:induction false} HoldOutPartition(n: int, lo: int, hi: int)
    requires 1 <= lo < hi <= n + 1 && (lo > 1 || hi <= n)
    ensures IsPartition(HoldOut(n, lo, hi))
    ensures |HoldOut(n, lo, hi).subList| == n - (hi - lo)
    ensures forall c :: c in HoldOut(n, lo, hi).subList <==> 1 <= c <= n && !(lo <= c < hi)
  {
    var s := HoldOut(n, lo, hi);
    RangeConcatAscending(1, lo, hi, n + 1);
    AscendingIsDistinct(s.subList);
    assert (if lo > 1 then 1 else n) in s.subList;
  }

  /** PASCAL: base and novel partition 1..20, and the novel classes of fold
      f are the five consecutive ids 5f+1 .. 5f+5. */
  lemma PascalPartition(fold: int)
    requires IsFold(fold)
    ensures IsPartition(PascalSplit(fold))
    ensures PascalSplit(fold).subValList == Range(5 * fold + 1, 5 * fold + 6)
    ensures |PascalSplit(fold).subList| == 15
    ensures forall c :: c in PascalSplit(fold).subList <==> 1 <= c <= 20 && !(5 * fold + 1 <= c <= 5 * fold + 5)
  {
    assert Range(21, 21) == [] && Range(1, 1) == [];
    assert PascalSplit(fold) == HoldOut(20, 5 * fold + 1, 5 * fold + 6);
    HoldOutPartition(20, 5 * fold + 1, 5 * fold + 6);
  }

  /** Dense COCO: base and novel partition 1..80, and the novel classes of
      fold f are the twenty consecutive ids 20f+1 .. 20f+20. */
  lemma CocoPartition(fold: int)
    requires IsFold(fold)
    ensures IsPartition(CocoSplit(fold))
    ensures CocoSplit(fold).subValList == Range(20 * fold + 1, 20 * fold + 21)
    ensures |CocoSplit(fold).subList| == 60
    ensures forall c :: c in CocoSplit(fold).subList <==> 1 <= c <= 80 && !(20 * fold + 1 <= c <= 20 * fold + 20)
  {
    assert Range(81, 81) == [] && Range(1, 1) == [];
    assert CocoSplit(fold) == HoldOut(80, 20 * fold + 1, 20 * fold + 21);
    HoldOutPartition(80, 20 * fold + 1, 20 * fold + 21);
  }

  /** The novel list of an interleaved fold is every id of 1..80 with the
      residue of its first element. */
  lemma ResidueClass(lo: int)
    requires 1 <= lo <= 4
    ensures forall x :: x in RangeBy4(lo, lo + 77) <==> 1 <= x <= 80 && x % 4 == lo % 4
    ensures |RangeBy4(lo, lo + 77)| == 20
  {
  }

  /** Interleaved COCO: the novel classes of fold f are the ids in 1..80
      congruent to f+1 modulo 4, the base classes are all the others, and
      there are 20 novel classes. */
  lemma SplitCocoPartition(fold: int)
    requires IsFold(fold)
    ensures IsPartition(SplitCocoSplit(fold))
    ensures forall c :: c in SplitCocoSplit(fold).subValList <==> 1 <= c <= 80 && c % 4 == (fold + 1) % 4
    ensures forall c :: c in SplitCocoSplit(fold).subList <==> 1 <= c <= 80 && c % 4 != (fold + 1) % 4
    ensures Ascending(SplitCocoSplit(fold).subList)
    ensures |SplitCocoSplit(fold).subValList| == 20
  {
    var s := SplitCocoSplit(fold);
    assert s.subValList == RangeBy4(fold + 1, fold + 78);
    ResidueClass(fold + 1);
    WithoutAscending(s.classList, s.subValList);
    AscendingIsDistinct(s.subList);
    AscendingIsDistinct(s.subValList);
    assert (if fold == 0 then 2 else 1) in s.subList;
  }

  /** Every branch of the table is a partition of its class list. */
  lemma SplitIsPartition(fold: int, useCoco: bool, useSplitCoco: bool)
    requires IsFold(fold)
    ensures IsPartition(SplitClasses(fold, useCoco, useSplitCoco))
  {
    if !useCoco { PascalPartition(fold); }
    else if useSplitCoco { SplitCocoPartition(fold); }
    else { CocoPartition(fold); }
  }
}
