/** The episodic dataset `SemData` (util/dataset.py:83-240): construction
    picks the class table for the fold and indexes the manifest under the
    active classes; `__getitem__` turns one query image into a few-shot
    episode (chosen class, binarized query label, `shot` support entries from
    the chosen class's bucket, and the class's rank). Randomness is an oracle:
    `draws` is the sequence of values `random.randint` produces, read
    front to back, and `randint(1, n) - 1` is `draws[p] % n`. */
module Sampler {
  import opened Common
  import opened Labels
  import opened Paths
  import opened ClassSplit
  import opened EpisodeIndex

  datatype Mode = Train | Val | Test

  /** A constructed dataset. Its fields are set once in `__init__`; `index`
      is None in test mode, where `__init__` never builds `data_list`. */
  datatype SemData = SemData(mode: Mode, split: int, shot: nat, classes: Split, index: Option<Index>)

  datatype InitError =
    | SubListUnset              // a fold without a branch in the class table
    | IndexFailed(e: IndexError)

  /** The classes of the current phase: base classes when training, novel
      classes when validating or testing. */
  function ActiveList(mode: Mode, classes: Split): seq<int>
  {
    if mode == Train then classes.subList else classes.subValList
  }

  /** `SemData.__init__` without the augmentation settings and the
      transform. */
  method NewSemData(split: int, shot: nat, root: string, listFile: Option<seq<string>>, mode: Mode,
                    useCoco: bool, useSplitCoco: bool, read: string -> LabelMap)
    returns (r: Result<SemData, InitError>)
    ensures !IsFold(split) ==> r == Err(SubListUnset)
    ensures IsFold(split) && mode == Test ==>
      r == Ok(SemData(Test, split, shot, SplitClasses(split, useCoco, useSplitCoco), None))
    ensures IsFold(split) && mode != Test && listFile.None? ==> r == Err(IndexFailed(MissingListFile))
    ensures IsFold(split) && mode != Test && listFile.Some? ==>
      var classes := SplitClasses(split, useCoco, useSplitCoco);
      r == match Build(root, listFile.value, read, ActiveList(mode, classes))
           case Ok(ix) => Ok(SemData(mode, split, shot, classes, Some(ix)))
           case Err(e) => Err(IndexFailed(e))
    ensures r.Ok? ==> r.value.mode == mode && r.value.shot == shot && r.value.split == split
    ensures r.Ok? ==> r.value.classes == SplitClasses(split, useCoco, useSplitCoco)
    ensures r.Ok? && mode != Test ==>
      && r.value.index.Some?
      && WellIndexed(r.value.index.value, read, ActiveList(mode, r.value.classes))
      && |r.value.index.value.buckets.Keys| == |ActiveList(mode, r.value.classes)|
  {
    if !IsFold(split) {
      return Err(SubListUnset);
    }
    var classes := SplitClasses(split, useCoco, useSplitCoco);
    if mode == Test {
      return Ok(SemData(Test, split, shot, classes, None));
    }
    var active := ActiveList(mode, classes);
    var built := MakeDataset(split, root, listFile, active, read);
    if built.Err? {
      return Err(IndexFailed(built.error));
    }
    SplitIsPartition(split, useCoco, useSplitCoco);
    BuildWellIndexed(root, listFile.value, read, active);
    return Ok(SemData(mode, split, shot, classes, Some(built.value)));
  }

  /** The loop of util/dataset.py:177-185 after `cs` (prefix form): a class
      is kept when it is novel in val/test mode or base in train mode. */
  function Candidates(cs: seq<int>, mode: Mode, classes: Split): seq<int>
  {
    if cs == [] then []
    else
      var c := cs[|cs| - 1];
      Candidates(cs[..|cs| - 1], mode, classes)
        + (if c in classes.subValList && (mode == Val || mode == Test) then [c] else [])
        + (if c in classes.subList && mode == Train then [c] else [])
  }

  /** The classes a query may be asked about: present in the label, not
      background or ignore, and active in this mode. */
  function ChoosableClasses(m: LabelMap, mode: Mode, classes: Split): seq<int>
  {
    Candidates(LabelClasses(m), mode, classes)
  }

  lemma {:induction false} CandidatesMembership(cs: seq<int>, mode: Mode, classes: Split)
    ensures forall c :: c in Candidates(cs, mode, classes) <==> c in cs && c in ActiveList(mode, classes)
    ensures Ascending(cs) ==> Ascending(Candidates(cs, mode, classes))
  {
    if cs != [] {
      var init := cs[..|cs| - 1];
      var last := cs[|cs| - 1];
      CandidatesMembership(init, mode, classes);
      CandidatesLast(cs, mode, classes);
      assert cs == init + [last];
      if Ascending(cs) {
        assert Ascending(init);
        var r0 := Candidates(init, mode, classes);
        forall k | 0 <= k < |r0| ensures r0[k] < last {
          assert r0[k] in r0;
        }
      }
    }
  }

  /** The last class is kept exactly when it is in the phase's list. */
  lemma {:induction false} CandidatesLast(cs: seq<int>, mode: Mode, classes: Split)
    requires cs != []
    ensures Candidates(cs, mode, classes) == Candidates(cs[..|cs| - 1], mode, classes) +
      (if cs[|cs| - 1] in ActiveList(mode, classes) then [cs[|cs| - 1]] else [])
  {
    var c := cs[|cs| - 1];
    var r0 := Candidates(cs[..|cs| - 1], mode, classes);
    if mode == Train {
      assert Candidates(cs, mode, classes) == r0 + [] + (if c in classes.subList then [c] else []);
    } else {
      assert Candidates(cs, mode, classes) == r0 + (if c in classes.subValList then [c] else []) + [];
    }
  }

  /** The choosable classes are exactly the active classes present in the label
      other than 0 and 255 (no area threshold here, unlike the index), and
      none occurs twice. */
  lemma ChoosableClassesMembership(m: LabelMap, mode: Mode, classes: Split)
    ensures forall c :: c in ChoosableClasses(m, mode, classes) <==>
      c in ActiveList(mode, classes) && c != Background && c != Ignore && Present(m, c)
    ensures Ascending(ChoosableClasses(m, mode, classes))
  {
    CandidatesMembership(LabelClasses(m), mode, classes);
  }

  /** util/dataset.py:172-185: the active classes of the query label. */
  method QueryClasses(m: LabelMap, mode: Mode, classes: Split) returns (cs: seq<int>)
    ensures cs == ChoosableClasses(m, mode, classes)
  {
    var present := LabelClasses(m);
    cs := KeepActive(present, mode, classes);
  }

  /** The loop of util/dataset.py:177-184 over the classes present. */
  method KeepActive(present: seq<int>, mode: Mode, classes: Split) returns (cs: seq<int>)
    ensures cs == Candidates(present, mode, classes)
  {
    cs := [];
    var j := 0;
    while j < |present|
      invariant 0 <= j <= |present|
      invariant cs == Candidates(present[..j], mode, classes)
    {
      assert present[..j + 1][..j] == present[..j];
      var c := present[j];
      if c in classes.subValList {
        if mode == Val || mode == Test {
          cs := cs + [c];
        }
      }
      if c in classes.subList {
        if mode == Train {
          cs := cs + [c];
        }
      }
      j := j + 1;
    }
    assert present[..j] == present;
  }

  datatype SampleError =
    | NoDataList                    // test mode: `self.data_list` was never set
    | IndexOutOfRange               // `self.data_list[index]`
    | QueryShapeMismatch            // the RuntimeError at util/dataset.py:170-171
    | NoActiveClass                 // the assert at util/dataset.py:186
    | MissingBucket                 // `self.sub_class_file_list[class_chosen]` raises KeyError
    | EmptyPool                     // `random.randint(1, 0)` raises ValueError
    | DrawsExhausted                // the oracle ran out of draws
    | SupportShapeMismatch(k: nat)  // the RuntimeError at util/dataset.py:237

  /** The redraw loop of util/dataset.py:209-211 from draw `p` on: the
      position of the first draw whose entry is not the query and that is not
      taken yet, with the index of the draw after it; None when the draws run
      out first. */
  function NextPick(query: ImageRecord, pool: seq<ImageRecord>, taken: seq<nat>, draws: seq<nat>, p: nat)
    : (r: Option<(nat, nat)>)
    requires |pool| > 0
    ensures r.Some? ==> r.value.0 < |pool| && pool[r.value.0] != query && r.value.0 !in taken
    ensures r.Some? ==> p < r.value.1 <= |draws| && r.value.0 == draws[r.value.1 - 1] % |pool|
    decreases |draws| - p
  {
    if p >= |draws| then None
    else
      var i := draws[p] % |pool|;
      if pool[i] != query && i !in taken then Some((i, p + 1))
      else NextPick(query, pool, taken, draws, p + 1)
  }

  /** One support from draw `p` on: draw `p` is always redrawn, since the
      support's paths start as the query's, and `NextPick` follows. */
  function OnePick(query: ImageRecord, pool: seq<ImageRecord>, taken: seq<nat>, draws: seq<nat>, p: nat)
    : Option<(nat, nat)>
    requires |pool| > 0
  {
    if p >= |draws| then None else NextPick(query, pool, taken, draws, p + 1)
  }

  /** The positions taken so far and the next unused draw. */
  datatype Picked = Picked(idxs: seq<nat>, next: nat)

  /** The first `k` supports of util/dataset.py:206-215, drawing from
      `start` on: each support skips one draw (its paths start as the
      query's, so the loop condition holds at once) and then takes the
      `NextPick` after it. */
  function Picks(query: ImageRecord, pool: seq<ImageRecord>, draws: seq<nat>, start: nat, k: nat)
    : Result<Picked, SampleError>
  {
    if k == 0 then Ok(Picked([], start))
    else match Picks(query, pool, draws, start, k - 1)
      case Err(e) => Err(e)
      case Ok(pk) =>
        if |pool| == 0 then Err(EmptyPool)
        else match OnePick(query, pool, pk.idxs, draws, pk.next)
          case None => Err(DrawsExhausted)
          case Some(pick) => Ok(Picked(pk.idxs + [pick.0], pick.1))
  }

  /** One more support after a successful `k`: `OnePick` decides it. */
  lemma PicksStep(query: ImageRecord, pool: seq<ImageRecord>, draws: seq<nat>, start: nat, k: nat,
                  idxs: seq<nat>, next: nat)
    requires |pool| > 0 && Picks(query, pool, draws, start, k) == Ok(Picked(idxs, next))
    ensures OnePick(query, pool, idxs, draws, next).None? ==>
      Picks(query, pool, draws, start, k + 1) == Err(DrawsExhausted)
    ensures OnePick(query, pool, idxs, draws, next).Some? ==>
      var pick := OnePick(query, pool, idxs, draws, next).value;
      Picks(query, pool, draws, start, k + 1) == Ok(Picked(idxs + [pick.0], pick.1))
  {
  }

  /** Once a support fails, every later count fails the same way. */
  lemma {:induction false} PicksErrStays(query: ImageRecord, pool: seq<ImageRecord>, draws: seq<nat>,
                                          start: nat, k: nat, n: nat)
    requires k <= n && Picks(query, pool, draws, start, k).Err?
    ensures Picks(query, pool, draws, start, n) == Picks(query, pool, draws, start, k)
    decreases n - k
  {
    if k < n {
      PicksErrStays(query, pool, draws, start, k, n - 1);
    }
  }

  /** The picks fail with `EmptyPool` exactly when a support is wanted from
      an empty bucket and otherwise only for lack of draws; a success holds
      `k` distinct positions of entries other than the query, and used two
      draws or more per support. */
  lemma {:induction false} PicksValid(query: ImageRecord, pool: seq<ImageRecord>, draws: seq<nat>, start: nat, k: nat)
    ensures Picks(query, pool, draws, start, k) == Err(EmptyPool) <==> k > 0 && |pool| == 0
    ensures Picks(query, pool, draws, start, k).Err? ==>
      Picks(query, pool, draws, start, k).error in {EmptyPool, DrawsExhausted}
    ensures Picks(query, pool, draws, start, k).Ok? ==>
      var pk := Picks(query, pool, draws, start, k).value;
      && |pk.idxs| == k && Distinct(pk.idxs)
      && (forall i :: 0 <= i < k ==> pk.idxs[i] < |pool| && pool[pk.idxs[i]] != query)
      && start + 2 * k <= pk.next
      && (k > 0 ==> pk.next <= |draws|)
  {
    if k > 0 {
      PicksValid(query, pool, draws, start, k - 1);
    }
  }

  /** One support of util/dataset.py:206-214, from the draw at `skipped`:
      that draw is redrawn at once, since the support's paths start as the
      query's; the loop then redraws while the entry is the query or the
      position is taken. */
  method PickOne(query: ImageRecord, pool: seq<ImageRecord>, taken: seq<nat>, draws: seq<nat>, skipped: nat)
    returns (pick: Option<(nat, nat)>)
    requires |pool| > 0
    ensures pick == OnePick(query, pool, taken, draws, skipped)
  {
    if skipped >= |draws| {
      return None;
    }
    var idx: nat := draws[skipped] % |pool|;
    var next := skipped + 1;
    var cur := query;
    while cur == query || idx in taken
      invariant idx < |pool| && skipped < next <= |draws|
      invariant cur == query || cur == pool[idx]
      invariant NextPick(query, pool, taken, draws, skipped + 1) ==
        if cur == query || idx in taken then NextPick(query, pool, taken, draws, next) else Some((idx, next))
      decreases |draws| - next
    {
      if next >= |draws| {
        return None;
      }
      idx := draws[next] % |pool|;
      next := next + 1;
      cur := pool[idx];
    }
    return Some((idx, next));
  }

  /** `r` and `next` are what the redraw rule gives for `shot` supports,
      and running out of draws leaves none unused. */
  ghost predicate Selected(query: ImageRecord, pool: seq<ImageRecord>, shot: nat, draws: seq<nat>, start: nat,
                           r: Result<seq<nat>, SampleError>, next: nat)
  {
    && (match Picks(query, pool, draws, start, shot)
        case Ok(pk) => r == Ok(pk.idxs) && next == pk.next
        case Err(e) => r == Err(e))
    && (r == Err(DrawsExhausted) ==> next >= |draws|)
  }

  /** What a selection by the redraw rule guarantees. */
  lemma SelectedFacts(query: ImageRecord, pool: seq<ImageRecord>, shot: nat, draws: seq<nat>, start: nat,
                      r: Result<seq<nat>, SampleError>, next: nat)
    requires Selected(query, pool, shot, draws, start, r, next)
    ensures r == Err(EmptyPool) <==> shot > 0 && |pool| == 0
    ensures r.Err? ==> r.error == EmptyPool || r.error == DrawsExhausted
    ensures r.Ok? ==> |r.value| == shot && Distinct(r.value)
    ensures r.Ok? ==> forall k :: 0 <= k < shot ==> r.value[k] < |pool| && pool[r.value[k]] != query
    ensures r.Ok? ==> start + 2 * shot <= next
    ensures r.Ok? && shot > 0 ==> next <= |draws|
  {
    PicksValid(query, pool, draws, start, shot);
  }

  /** util/dataset.py:206-215: `shot` support positions in `pool`, by the
      retry rule `Picks`, and the next unused draw. */
  method SelectSupports(query: ImageRecord, pool: seq<ImageRecord>, shot: nat, draws: seq<nat>, start: nat)
    returns (r: Result<seq<nat>, SampleError>, next: nat)
    ensures Selected(query, pool, shot, draws, start, r, next)
    ensures r == Err(EmptyPool) <==> shot > 0 && |pool| == 0
    ensures r.Err? ==> r.error == EmptyPool || r.error == DrawsExhausted
    ensures r.Ok? ==> |r.value| == shot && Distinct(r.value)
    ensures r.Ok? ==> forall k :: 0 <= k < shot ==> r.value[k] < |pool| && pool[r.value[k]] != query
    ensures r.Ok? ==> start + 2 * shot <= next
    ensures r.Ok? && shot > 0 ==> next <= |draws|
  {
    next := start;
    if |pool| == 0 && shot > 0 {
      // `random.randint(1, 0)` raises at the first support.
      PicksErrStays(query, pool, draws, start, 1, shot);
      r := Err(EmptyPool);
      SelectedFacts(query, pool, shot, draws, start, r, next);
      return;
    }
    var picked := Picked([], start);
    var k := 0;
    while k < shot
      invariant 0 <= k <= shot && (shot > 0 ==> |pool| > 0)
      invariant Picks(query, pool, draws, start, k) == Ok(picked)
    {
      var pick := PickOne(query, pool, picked.idxs, draws, picked.next);
      PicksStep(query, pool, draws, start, k, picked.idxs, picked.next);
      if pick.None? {
        PicksErrStays(query, pool, draws, start, k + 1, shot);
        r := Err(DrawsExhausted);
        next := if picked.next < |draws| then |draws| else picked.next;
        SelectedFacts(query, pool, shot, draws, start, r, next);
        return;
      }
      picked := Picked(picked.idxs + [pick.value.0], pick.value.1);
      k := k + 1;
    }
    r, next := Ok(picked.idxs), picked.next;
    SelectedFacts(query, pool, shot, draws, start, r, next);
  }

  /** The positions of the pool that the retry loop can accept. */
  function Admissible(query: ImageRecord, pool: seq<ImageRecord>): set<nat>
  {
    set i: nat | i < |pool| && pool[i] != query
  }

  /** Distinct admissible positions are at most as many as the admissible
      positions: a pool with fewer than `shot` entries other than the query
      never yields an episode (the source's retry loop then never ends). */
  lemma SupportsBounded(query: ImageRecord, pool: seq<ImageRecord>, idxs: seq<nat>)
    requires Distinct(idxs)
    requires forall k :: 0 <= k < |idxs| ==> idxs[k] < |pool| && pool[idxs[k]] != query
    ensures |idxs| <= |Admissible(query, pool)|
  {
    DistinctCard(idxs);
    assert Elems(idxs) <= Admissible(query, pool);
    SubsetCard(Elems(idxs), Admissible(query, pool));
  }

  /** One episode of `__getitem__` (before the transform). */
  datatype Episode = Episode(
    query: ImageRecord,
    queryLabel: LabelMap,
    chosen: int,
    supportIdx: seq<nat>,
    supports: seq<ImageRecord>,
    supportLabels: seq<LabelMap>,
    subcls: seq<nat>)

  /** Every picked position is in the pool and its image has the shape of
      its label. */
  ghost predicate ShapesMatch(pool: seq<ImageRecord>, idxs: seq<nat>, read: string -> LabelMap,
                              imageShape: string -> Shape)
  {
    forall k :: 0 <= k < |idxs| ==>
      idxs[k] < |pool| && imageShape(pool[idxs[k]].imagePath) == ShapeOf(read(pool[idxs[k]].labelPath))
  }

  /** The support part of an episode: the positions the redraw rule picks
      from draw 1 on, their entries, and their labels binarized for the
      chosen class. */
  ghost predicate HasSupports(e: Episode, pool: seq<ImageRecord>, shot: nat, draws: seq<nat>,
                              read: string -> LabelMap, imageShape: string -> Shape)
  {
    && Picks(e.query, pool, draws, 1, shot).Ok?
    && Picks(e.query, pool, draws, 1, shot).value.idxs == e.supportIdx
    && |e.supportIdx| == shot && Distinct(e.supportIdx)
    && |e.supports| == shot && |e.supportLabels| == shot
    && (forall k :: 0 <= k < shot ==>
          && e.supportIdx[k] < |pool|
          && e.supports[k] == pool[e.supportIdx[k]]
          && e.supports[k] != e.query
          && e.supportLabels[k] == Binarized(read(e.supports[k].labelPath), e.chosen)
          && imageShape(e.supports[k].imagePath) == ShapeOf(e.supportLabels[k]))
  }

  /** What a successful `__getitem__(idx)` returns, given the label reader,
      the image shapes and the draws. */
  ghost predicate IsEpisode(ds: SemData, idx: nat, read: string -> LabelMap, imageShape: string -> Shape,
                            draws: seq<nat>, e: Episode)
  {
    && ds.index.Some? && idx < |ds.index.value.images|
    && EpisodeOf(ds, ds.index.value.images[idx], read, imageShape, draws, e)
  }

  /** An episode for the query `q`: its shapes match, draw 0 picks the class
      among the choosable ones, the supports come from that class's bucket,
      and each rank is the class's position in the phase's list. */
  ghost predicate EpisodeOf(ds: SemData, q: ImageRecord, read: string -> LabelMap, imageShape: string -> Shape,
                            draws: seq<nat>, e: Episode)
  {
    && ds.index.Some?
    && e.query == q
    && imageShape(q.imagePath) == ShapeOf(read(q.labelPath))
    && var cs := ChoosableClasses(read(q.labelPath), ds.mode, ds.classes);
    && |cs| > 0 && |draws| > 0 && e.chosen == cs[draws[0] % |cs|]
    && e.queryLabel == Binarized(read(q.labelPath), e.chosen)
    && e.chosen in ds.index.value.buckets
    && HasSupports(e, ds.index.value.buckets[e.chosen], ds.shot, draws, read, imageShape)
    && e.chosen in ActiveList(ds.mode, ds.classes)
    && e.subcls == seq(ds.shot, _ => IndexOf(ActiveList(ds.mode, ds.classes), e.chosen))
  }

  /** `SemData.__getitem__(idx)` up to the transform. `read` gives the
      grayscale label at a path and `imageShape` the (height, width) of the
      colour image at a path. */
  method GetItem(ds: SemData, idx: nat, read: string -> LabelMap, imageShape: string -> Shape, draws: seq<nat>)
    returns (r: Result<Episode, SampleError>)
    ensures ds.index.None? ==> r == Err(NoDataList)
    ensures ds.index.Some? && idx >= |ds.index.value.images| ==> r == Err(IndexOutOfRange)
    ensures ds.index.Some? && idx < |ds.index.value.images| ==>
      var q := ds.index.value.images[idx];
      && (imageShape(q.imagePath) != ShapeOf(read(q.labelPath)) ==> r == Err(QueryShapeMismatch))
      && (imageShape(q.imagePath) == ShapeOf(read(q.labelPath)) ==> QueryOutcome(ds, q, read, imageShape, draws, r))
    ensures ds.index.Some? && ds.index.value.buckets.Keys == Elems(ActiveList(ds.mode, ds.classes)) ==>
      r != Err(MissingBucket)
    ensures r.Ok? ==> IsEpisode(ds, idx, read, imageShape, draws, r.value)
  {
    if ds.index.None? {
      return Err(NoDataList);
    }
    var ix := ds.index.value;
    if idx >= |ix.images| {
      return Err(IndexOutOfRange);
    }
    var q := ix.images[idx];
    if imageShape(q.imagePath) != ShapeOf(read(q.labelPath)) {
      return Err(QueryShapeMismatch);
    }
    r := QueryEpisode(ds, q, read, imageShape, draws);
  }

  /** How `__getitem__` ends for a query whose shapes match: no choosable
      class is `NoActiveClass`; otherwise draw 0 chooses the class, a
      missing bucket is `MissingBucket`, and the support part decides the
      rest (`SupportOutcome`). */
  ghost predicate QueryOutcome(ds: SemData, q: ImageRecord, read: string -> LabelMap, imageShape: string -> Shape,
                               draws: seq<nat>, r: Result<Episode, SampleError>)
    requires ds.index.Some?
  {
    var cs := ChoosableClasses(read(q.labelPath), ds.mode, ds.classes);
    && (cs == [] ==> r == Err(NoActiveClass))
    && (cs != [] && draws == [] ==> r == Err(DrawsExhausted))
    && (cs != [] && draws != [] ==>
          var c := cs[draws[0] % |cs|];
          && (c !in ds.index.value.buckets ==> r == Err(MissingBucket))
          && (c in ds.index.value.buckets ==>
                SupportOutcome(q, ds.index.value.buckets[c], ds.shot, draws, read, imageShape, r)))
  }

  /** util/dataset.py:172-240 for a query whose shapes match: choose the
      class, binarize the query label, and take the supports. */
  method QueryEpisode(ds: SemData, q: ImageRecord, read: string -> LabelMap, imageShape: string -> Shape,
                      draws: seq<nat>)
    returns (r: Result<Episode, SampleError>)
    requires ds.index.Some? && imageShape(q.imagePath) == ShapeOf(read(q.labelPath))
    ensures QueryOutcome(ds, q, read, imageShape, draws, r)
    ensures ds.index.value.buckets.Keys == Elems(ActiveList(ds.mode, ds.classes)) ==> r != Err(MissingBucket)
    ensures r.Ok? ==> EpisodeOf(ds, q, read, imageShape, draws, r.value)
  {
    var ix := ds.index.value;
    var qm := read(q.labelPath);
    var cs := QueryClasses(qm, ds.mode, ds.classes);
    if |cs| == 0 {
      return Err(NoActiveClass);
    }
    if |draws| == 0 {
      return Err(DrawsExhausted);
    }
    var chosen := cs[draws[0] % |cs|];
    ChoosableClassesMembership(qm, ds.mode, ds.classes);
    assert chosen in cs;
    var queryLabel := Binarized(qm, chosen);
    var active := ActiveList(ds.mode, ds.classes);
    if chosen !in ix.buckets {
      assert chosen in Elems(active);
      return Err(MissingBucket);
    }
    r := SupportEpisode(q, queryLabel, chosen, ix.buckets[chosen], ds.shot, IndexOf(active, chosen),
                        read, imageShape, draws);
  }

  /** How the support part of `__getitem__` ends for a query, a pool and
      the draws: the redraw rule's error, or an episode exactly when every
      picked support's image matches its label's shape, or else a support
      shape mismatch. */
  ghost predicate SupportOutcome(q: ImageRecord, pool: seq<ImageRecord>, shot: nat, draws: seq<nat>,
                                 read: string -> LabelMap, imageShape: string -> Shape,
                                 r: Result<Episode, SampleError>)
  {
    var p := Picks(q, pool, draws, 1, shot);
    && (p.Err? ==> r == Err(p.error))
    && (p.Ok? ==> (r.Ok? <==> ShapesMatch(pool, p.value.idxs, read, imageShape)))
    && (p.Ok? && r.Err? ==> r.error.SupportShapeMismatch?)
  }

  /** util/dataset.py:199-240 once the class is chosen: the supports by the
      redraw rule from draw 1 on, then their labels and ranks. */
  method SupportEpisode(q: ImageRecord, queryLabel: LabelMap, chosen: int, pool: seq<ImageRecord>, shot: nat,
                        rank: nat, read: string -> LabelMap, imageShape: string -> Shape, draws: seq<nat>)
    returns (r: Result<Episode, SampleError>)
    ensures SupportOutcome(q, pool, shot, draws, read, imageShape, r)
    ensures r.Err? ==> r.error == EmptyPool || r.error == DrawsExhausted || r.error.SupportShapeMismatch?
    ensures r.Ok? ==>
      && r.value.query == q && r.value.queryLabel == queryLabel && r.value.chosen == chosen
      && r.value.subcls == seq(shot, _ => rank)
      && HasSupports(r.value, pool, shot, draws, read, imageShape)
  {
    var sel, _ := SelectSupports(q, pool, shot, draws, 1);
    if sel.Err? {
      return Err(sel.error);
    }
    var supportIdx := sel.value;
    var supports, supportLabels, subcls := ReadSupports(pool, supportIdx, chosen, rank, read, imageShape);
    if supports.Err? {
      return Err(supports.error);
    }
    return Ok(Episode(q, queryLabel, chosen, supportIdx, supports.value, supportLabels, subcls));
  }

  /** util/dataset.py:220-240: for each support in order, record the chosen
      class's rank, read and binarize the support label, and fail on the
      first support whose image and label shapes differ. */
  method ReadSupports(pool: seq<ImageRecord>, supportIdx: seq<nat>, chosen: int, rank: nat,
                      read: string -> LabelMap, imageShape: string -> Shape)
    returns (r: Result<seq<ImageRecord>, SampleError>, labels: seq<LabelMap>, subcls: seq<nat>)
    requires forall k :: 0 <= k < |supportIdx| ==> supportIdx[k] < |pool|
    ensures r.Err? ==> exists k :: (0 <= k < |supportIdx| && r.error == SupportShapeMismatch(k) &&
      imageShape(pool[supportIdx[k]].imagePath) != ShapeOf(read(pool[supportIdx[k]].labelPath)) &&
      forall j :: 0 <= j < k ==>
        imageShape(pool[supportIdx[j]].imagePath) == ShapeOf(read(pool[supportIdx[j]].labelPath)))
    ensures r.Ok? <==> forall k :: 0 <= k < |supportIdx| ==>
      imageShape(pool[supportIdx[k]].imagePath) == ShapeOf(read(pool[supportIdx[k]].labelPath))
    ensures r.Ok? ==> |r.value| == |labels| == |subcls| == |supportIdx|
    ensures r.Ok? ==> forall k :: 0 <= k < |supportIdx| ==>
      && r.value[k] == pool[supportIdx[k]]
      && labels[k] == Binarized(read(r.value[k].labelPath), chosen)
      && imageShape(r.value[k].imagePath) == ShapeOf(labels[k])
      && subcls[k] == rank
  {
    var supports: seq<ImageRecord> := [];
    labels, subcls := [], [];
    var k := 0;
    while k < |supportIdx|
      invariant 0 <= k <= |supportIdx| && |supports| == |labels| == |subcls| == k
      invariant forall i :: 0 <= i < k ==>
        && supports[i] == pool[supportIdx[i]]
        && labels[i] == Binarized(read(supports[i].labelPath), chosen)
        && imageShape(supports[i].imagePath) == ShapeOf(labels[i])
        && imageShape(pool[supportIdx[i]].imagePath) == ShapeOf(read(pool[supportIdx[i]].labelPath))
        && subcls[i] == rank
    {
      subcls := subcls + [rank];
      var s := pool[supportIdx[k]];
      var m := read(s.labelPath);
      var b := Binarized(m, chosen);
      BinarizedPixels(m, chosen);
      if imageShape(s.imagePath) != ShapeOf(b) {
        return Err(SupportShapeMismatch(k)), labels, subcls;
      }
      supports := supports + [s];
      labels := labels + [b];
      k := k + 1;
    }
    return Ok(supports), labels, subcls;
  }

  /** What an episode guarantees: the chosen class is an active class that
      occurs in the query (possibly with a small area), the query label is
      binary with the chosen class's pixels as its foreground, every support
      label is binary, and each rank points back at the chosen class. When the
      index is the one `make_dataset` builds, every support has at least
      `MinArea` foreground pixels. */
  lemma EpisodeProperties(ds: SemData, idx: nat, read: string -> LabelMap, imageShape: string -> Shape,
                          draws: seq<nat>, e: Episode)
    requires IsEpisode(ds, idx, read, imageShape, draws, e)
    ensures e.chosen != Background && e.chosen != Ignore && Present(read(e.query.labelPath), e.chosen)
    ensures IsBinary(e.queryLabel) && Count(e.queryLabel, 1) == Count(read(e.query.labelPath), e.chosen) > 0
    ensures forall k :: 0 <= k < ds.shot ==> IsBinary(e.supportLabels[k])
    ensures forall k :: 0 <= k < ds.shot ==>
      e.subcls[k] < |ActiveList(ds.mode, ds.classes)| && ActiveList(ds.mode, ds.classes)[e.subcls[k]] == e.chosen
    ensures WellIndexed(ds.index.value, read, ActiveList(ds.mode, ds.classes)) ==>
      forall k :: 0 <= k < ds.shot ==> Count(e.supportLabels[k], 1) >= MinArea
  {
    var qm := read(e.query.labelPath);
    var cs := ChoosableClasses(qm, ds.mode, ds.classes);
    ChoosableClassesMembership(qm, ds.mode, ds.classes);
    assert e.chosen in cs;
    BinarizedPixels(qm, e.chosen);
    BinarizedForeground(qm, e.chosen);
    CountPositive(qm, e.chosen);
    forall k | 0 <= k < ds.shot ensures IsBinary(e.supportLabels[k]) {
      BinarizedPixels(read(e.supports[k].labelPath), e.chosen);
    }
    if WellIndexed(ds.index.value, read, ActiveList(ds.mode, ds.classes)) {
      forall k | 0 <= k < ds.shot ensures Count(e.supportLabels[k], 1) >= MinArea {
        var pool := ds.index.value.buckets[e.chosen];
        assert e.supports[k] in pool;
        BinarizedForeground(read(e.supports[k].labelPath), e.chosen);
      }
    }
  }
}
