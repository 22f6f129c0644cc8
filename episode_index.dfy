/** `make_dataset` (util/dataset.py:24-77): one scan of the manifest that
    builds the list of query candidates and, for every active class, the
    bucket of images in which that class covers at least `MinArea` pixels. */
module EpisodeIndex {
  import opened Common
  import opened Labels
  import opened Paths

  /** `image_label_list` and `sub_class_file_list`. */
  datatype Index = Index(images: seq<ImageRecord>, buckets: map<int, seq<ImageRecord>>)

  datatype IndexError =
    | SplitNotAllowed(split: int)          // the assert at util/dataset.py:27
    | MissingListFile                      // the RuntimeError at util/dataset.py:28-29
    | BadLine(lineNo: nat, e: LineError)   // line_split[1] on a line with one field

  const AllowedSplits: seq<int> := [0, 1, 2, 3, 10, 11, 999]

  /** The classes of `cs` that are active and cover at least `MinArea`
      pixels of `m`, in the order of `cs` (util/dataset.py:59-66). */
  function Qualified(cs: seq<int>, m: LabelMap, active: seq<int>): (r: seq<int>)
    ensures forall c :: c in r <==> c in cs && c in active && Count(m, c) >= MinArea
    ensures Ascending(cs) ==> Ascending(r)
  {
    if cs == [] then []
    else
      var init := cs[..|cs| - 1];
      var last := cs[|cs| - 1];
      var r0 := Qualified(init, m, active);
      assert forall c :: c in cs <==> c in init || c == last by {
        assert cs == init + [last];
      }
      assert Ascending(cs) ==> forall k :: 0 <= k < |r0| ==> r0[k] < last by {
        if Ascending(cs) {
          forall k | 0 <= k < |r0| ensures r0[k] < last {
            assert r0[k] in r0;
            var i :| 0 <= i < |init| && init[i] == r0[k];
          }
        }
      }
      r0 + (if last in active && Count(m, last) >= MinArea then [last] else [])
  }

  /** The classes an image is indexed under: present, neither background
      nor ignore, active, and at least `MinArea` pixels large. */
  function Retained(m: LabelMap, active: seq<int>): (r: seq<int>)
    ensures forall c :: c in r <==> c in active && c != Background && c != Ignore && Count(m, c) >= MinArea
    ensures Ascending(r)
  {
    forall c ensures Count(m, c) >= MinArea ==> Present(m, c) {
      CountPositive(m, c);
    }
    Qualified(LabelClasses(m), m, active)
  }

  /** The items for which `keep` holds, in manifest order. */
  function Select(items: seq<ImageRecord>, keep: ImageRecord -> bool): seq<ImageRecord>
  {
    if items == [] then []
    else
      var last := items[|items| - 1];
      Select(items[..|items| - 1], keep) + (if keep(last) then [last] else [])
  }

  /** `image_label_list` after the items `items`: each item once, in
      manifest order, if some class is retained for it. */
  function Images(items: seq<ImageRecord>, read: string -> LabelMap, active: seq<int>): seq<ImageRecord>
  {
    Select(items, (r: ImageRecord) => |Retained(read(r.labelPath), active)| > 0)
  }

  /** `sub_class_file_list[c]` after the items `items`. */
  function Bucket(items: seq<ImageRecord>, read: string -> LabelMap, active: seq<int>, c: int): seq<ImageRecord>
  {
    Select(items, (r: ImageRecord) => c in Retained(read(r.labelPath), active))
  }

  /** The manifest lines as records; the first line without a second field
      is the error. */
  function ParseAll(root: string, lines: seq<string>): Result<seq<ImageRecord>, IndexError>
  {
    if lines == [] then Ok([])
    else
      match ParseAll(root, lines[..|lines| - 1])
      case Err(e) => Err(e)
      case Ok(items) =>
        match ParseLine(root, lines[|lines| - 1])
        case Err(e) => Err(BadLine(|lines| - 1, e))
        case Ok(item) => Ok(items + [item])
  }

  /** What a successful scan of the manifest returns. */
  function IndexFor(items: seq<ImageRecord>, read: string -> LabelMap, active: seq<int>): (ix: Index)
    ensures forall c :: c in ix.buckets <==> c in active
  {
    Index(Images(items, read, active), map c | c in active :: Bucket(items, read, active, c))
  }

  function Build(root: string, lines: seq<string>, read: string -> LabelMap, active: seq<int>): (r: Result<Index, IndexError>)
    ensures r.Ok? ==> forall c :: c in r.value.buckets <==> c in active
    ensures r.Err? <==> ParseAll(root, lines).Err?
  {
    match ParseAll(root, lines)
    case Err(e) => Err(e)
    case Ok(items) => Ok(IndexFor(items, read, active))
  }

  /** Selection keeps exactly the items that pass, and no more of them
      than there are. */
  lemma {:induction false} SelectMembership(items: seq<ImageRecord>, keep: ImageRecord -> bool)
    ensures forall r :: r in Select(items, keep) <==> r in items && keep(r)
    ensures |Select(items, keep)| <= |items|
  {
    if items != [] {
      var init := items[..|items| - 1];
      SelectMembership(init, keep);
      assert items == init + [items[|items| - 1]];
    }
  }

  /** An item is in bucket `c` exactly when it is a manifest item for which
      `c` is retained. */
  lemma BucketMembership(items: seq<ImageRecord>, read: string -> LabelMap, active: seq<int>, c: int)
    ensures forall r :: r in Bucket(items, read, active, c) <==> r in items && c in Retained(read(r.labelPath), active)
    ensures |Bucket(items, read, active, c)| <= |items|
  {
    SelectMembership(items, (r: ImageRecord) => c in Retained(read(r.labelPath), active));
  }

  /** An item is in `image_label_list` exactly when it is a manifest item for
      which some class is retained. */
  lemma ImagesMembership(items: seq<ImageRecord>, read: string -> LabelMap, active: seq<int>)
    ensures forall r :: r in Images(items, read, active) <==> r in items && |Retained(read(r.labelPath), active)| > 0
    ensures |Images(items, read, active)| <= |items|
  {
    SelectMembership(items, (r: ImageRecord) => |Retained(read(r.labelPath), active)| > 0);
  }

  /** What `make_dataset` guarantees about its result: the bucket keys are
      the active classes; every bucket entry has at least `MinArea` pixels of
      its class, which is never background or ignore; and the image list
      holds exactly the items that occur in some bucket. */
  ghost predicate WellIndexed(ix: Index, read: string -> LabelMap, active: seq<int>)
  {
    && ix.buckets.Keys == Elems(active)
    && (forall c, r :: c in ix.buckets && r in ix.buckets[c] ==>
          c != Background && c != Ignore && Count(read(r.labelPath), c) >= MinArea)
    && (forall r :: r in ix.images <==> exists c :: c in ix.buckets && r in ix.buckets[c])
  }

  lemma IndexForWellIndexed(items: seq<ImageRecord>, read: string -> LabelMap, active: seq<int>)
    ensures WellIndexed(IndexFor(items, read, active), read, active)
    ensures Distinct(active) ==> |IndexFor(items, read, active).buckets.Keys| == |active|
  {
    var ix := IndexFor(items, read, active);
    assert ix.buckets.Keys == Elems(active);
    assert forall c :: c in ix.buckets ==> ix.buckets[c] == Bucket(items, read, active, c);
    forall c | c in active {
      BucketQualifies(items, read, active, c);
    }
    ImagesAreBucketed(items, read, active);
    assert forall r :: r in ix.images <==> exists c :: c in ix.buckets && r in ix.buckets[c] by {
      forall r ensures r in ix.images <==> exists c :: c in ix.buckets && r in ix.buckets[c] {
        if r in ix.images {
          var c :| c in active && r in Bucket(items, read, active, c);
          assert c in ix.buckets && r in ix.buckets[c];
        }
      }
    }
    if Distinct(active) {
      DistinctCard(active);
    }
  }

  /** Every entry of bucket `c` has at least `MinArea` pixels of class `c`,
      and `c` is neither background nor ignore. */
  lemma BucketQualifies(items: seq<ImageRecord>, read: string -> LabelMap, active: seq<int>, c: int)
    ensures forall r :: r in Bucket(items, read, active, c) ==>
      c != Background && c != Ignore && Count(read(r.labelPath), c) >= MinArea
  {
    BucketMembership(items, read, active, c);
    forall r | r in Bucket(items, read, active, c)
      ensures c != Background && c != Ignore && Count(read(r.labelPath), c) >= MinArea
    {
      assert c in Retained(read(r.labelPath), active);
    }
  }

  lemma ImagesAreBucketed(items: seq<ImageRecord>, read: string -> LabelMap, active: seq<int>)
    ensures forall r :: r in Images(items, read, active) <==>
      exists c :: c in active && r in Bucket(items, read, active, c)
  {
    ImagesMembership(items, read, active);
    forall r ensures r in Images(items, read, active) ==> exists c :: c in active && r in Bucket(items, read, active, c) {
      if r in Images(items, read, active) {
        var c := Retained(read(r.labelPath), active)[0];
        assert c in Retained(read(r.labelPath), active);
        BucketMembership(items, read, active, c);
      }
    }
    forall r, c | c in active && r in Bucket(items, read, active, c) ensures r in Images(items, read, active) {
      BucketMembership(items, read, active, c);
    }
  }

  /** The scan either fails on a line or returns a well-indexed result (the
      key-count asserts at util/dataset.py:152 and 155 hold when the active
      list is free of duplicates, as every class table list is). */
  lemma BuildWellIndexed(root: string, lines: seq<string>, read: string -> LabelMap, active: seq<int>)
    ensures Build(root, lines, read, active).Ok? ==> WellIndexed(Build(root, lines, read, active).value, read, active)
    ensures Build(root, lines, read, active).Ok? && Distinct(active) ==>
      |Build(root, lines, read, active).value.buckets.Keys| == |active|
  {
    if ParseAll(root, lines).Ok? {
      IndexForWellIndexed(ParseAll(root, lines).value, read, active);
    }
  }

  lemma {:induction false} ParseAllErrSticks(root: string, lines: seq<string>, n: nat)
    requires n <= |lines| && ParseAll(root, lines[..n]).Err?
    ensures ParseAll(root, lines) == ParseAll(root, lines[..n])
    decreases |lines| - n
  {
    if n < |lines| {
      var pre := lines[..n + 1];
      assert pre[..|pre| - 1] == lines[..n];
      assert ParseAll(root, pre) == ParseAll(root, lines[..n]);
      ParseAllErrSticks(root, lines, n + 1);
    } else {
      assert lines[..n] == lines;
    }
  }

  /** Parsing fails iff some line has no second field, and the error names
      the first such line. */
  lemma {:induction false} ParseAllFails(root: string, lines: seq<string>)
    ensures ParseAll(root, lines).Err? ==>
      exists l :: 0 <= l < |lines| && ParseLine(root, lines[l]).Err?
    ensures ParseAll(root, lines).Ok? ==>
      forall l :: 0 <= l < |lines| ==> ParseLine(root, lines[l]).Ok?
    ensures ParseAll(root, lines).Err? ==>
      ParseAll(root, lines).error.BadLine? &&
      ParseAll(root, lines).error.lineNo < |lines| &&
      ParseLine(root, lines[ParseAll(root, lines).error.lineNo]) == Err(ParseAll(root, lines).error.e) &&
      forall j :: 0 <= j < ParseAll(root, lines).error.lineNo ==> ParseLine(root, lines[j]).Ok?
  {
    if lines != [] {
      var n := |lines| - 1;
      var init := lines[..n];
      ParseAllFails(root, init);
      assert lines[..n + 1] == lines;
      match ParseAll(root, init)
      case Err(e) =>
        assert ParseAll(root, lines) == Err(e);
        var l := e.lineNo;
        assert init[l] == lines[l];
        forall j | 0 <= j < l ensures ParseLine(root, lines[j]).Ok? {
          assert init[j] == lines[j];
        }
        assert 0 <= l < |lines| && ParseLine(root, lines[l]).Err?;
      case Ok(items) =>
        ParseStep(root, lines, n, items);
        if ParseLine(root, lines[n]).Ok? {
          forall j | 0 <= j < |lines| ensures ParseLine(root, lines[j]).Ok? {
            if j < n {
              assert init[j] == lines[j];
              assert ParseLine(root, init[j]).Ok?;
            } else {
              assert j == n;
            }
          }
        } else {
          forall j | 0 <= j < n ensures ParseLine(root, lines[j]).Ok? {
            assert init[j] == lines[j];
          }
        }
    }
  }

  lemma ParseStep(root: string, lines: seq<string>, l: nat, items: seq<ImageRecord>)
    requires l < |lines| && ParseAll(root, lines[..l]) == Ok(items)
    ensures ParseLine(root, lines[l]).Err? ==>
      ParseAll(root, lines[..l + 1]) == Err(BadLine(l, ParseLine(root, lines[l]).error))
    ensures ParseLine(root, lines[l]).Ok? ==>
      ParseAll(root, lines[..l + 1]) == Ok(items + [ParseLine(root, lines[l]).value])
  {
    var pre := lines[..l + 1];
    assert pre[..|pre| - 1] == lines[..l];
    assert pre[|pre| - 1] == lines[l];
  }

  /** One more manifest item extends the list and the buckets by at most
      that item. */
  lemma ScanStep(items: seq<ImageRecord>, item: ImageRecord, read: string -> LabelMap, active: seq<int>)
    ensures Images(items + [item], read, active) ==
      Images(items, read, active) + (if |Retained(read(item.labelPath), active)| > 0 then [item] else [])
    ensures forall c ::
      Bucket(items + [item], read, active, c) ==
        Bucket(items, read, active, c) + (if c in Retained(read(item.labelPath), active) then [item] else [])
  {
    assert (items + [item])[..|items|] == items;
  }

  lemma BucketsAre(buckets: map<int, seq<ImageRecord>>, items: seq<ImageRecord>, read: string -> LabelMap, active: seq<int>)
    requires forall c :: c in buckets <==> c in active
    requires forall c :: c in buckets ==> buckets[c] == Bucket(items, read, active, c)
    ensures buckets == IndexFor(items, read, active).buckets
  {
    var want := IndexFor(items, read, active).buckets;
    assert buckets.Keys == want.Keys;
    forall c | c in want ensures buckets[c] == want[c] {
    }
  }

  /** util/dataset.py:39-41: an empty bucket for every active class. */
  method EmptyBuckets(active: seq<int>) returns (buckets: map<int, seq<ImageRecord>>)
    ensures forall c :: c in buckets <==> c in active
    ensures forall c :: c in buckets ==> buckets[c] == []
  {
    buckets := map[];
    var k := 0;
    while k < |active|
      invariant 0 <= k <= |active|
      invariant forall c :: c in buckets <==> c in active[..k]
      invariant forall c :: c in buckets ==> buckets[c] == []
    {
      assert active[..k + 1] == active[..k] + [active[k]];
      buckets := buckets[active[k] := []];
      k := k + 1;
    }
    assert active[..k] == active;
  }

  /** The classes of one label map kept for the index (util/dataset.py:57-66). */
  method RetainedClasses(m: LabelMap, active: seq<int>) returns (kept: seq<int>)
    ensures kept == Retained(m, active)
  {
    var classes := LabelClasses(m);
    kept := KeepQualified(classes, m, active);
  }

  /** The loop of util/dataset.py:59-66 over the classes of one label map. */
  method KeepQualified(classes: seq<int>, m: LabelMap, active: seq<int>) returns (kept: seq<int>)
    ensures kept == Qualified(classes, m, active)
  {
    kept := [];
    var j := 0;
    while j < |classes|
      invariant 0 <= j <= |classes|
      invariant kept == Qualified(classes[..j], m, active)
    {
      assert classes[..j + 1][..j] == classes[..j];
      var c := classes[j];
      if c in active {
        var area := Count(m, c);
        if area >= MinArea {
          kept := kept + [c];
        }
      }
      j := j + 1;
    }
    assert classes[..j] == classes;
  }

  /** The loop of util/dataset.py:72-74: the item is appended once to the
      bucket of every retained class that has a bucket. */
  method AppendToBuckets(buckets: map<int, seq<ImageRecord>>, kept: seq<int>, item: ImageRecord)
    returns (b: map<int, seq<ImageRecord>>)
    requires Distinct(kept)
    ensures b.Keys == buckets.Keys
    ensures forall c :: c in b ==> b[c] == if c in kept then buckets[c] + [item] else buckets[c]
  {
    b := buckets;
    var j := 0;
    while j < |kept|
      invariant 0 <= j <= |kept|
      invariant b.Keys == buckets.Keys
      invariant forall c :: c in b ==> b[c] == if c in kept[..j] then buckets[c] + [item] else buckets[c]
    {
      var c := kept[j];
      assert c !in kept[..j];
      assert kept[..j + 1] == kept[..j] + [c];
      if c in b {
        b := b[c := b[c] + [item]];
      }
      j := j + 1;
    }
    assert kept[..j] == kept;
  }

  /** The body of the manifest loop for one parsed item (util/dataset.py:50-74). */
  method ScanItem(imageList: seq<ImageRecord>, buckets: map<int, seq<ImageRecord>>, item: ImageRecord,
                  ghost items: seq<ImageRecord>, read: string -> LabelMap, active: seq<int>)
    returns (imageList': seq<ImageRecord>, buckets': map<int, seq<ImageRecord>>)
    requires Index(imageList, buckets) == IndexFor(items, read, active)
    ensures Index(imageList', buckets') == IndexFor(items + [item], read, active)
  {
    assert forall c :: c in buckets <==> c in active;
    assert forall c :: c in buckets ==> buckets[c] == Bucket(items, read, active, c);
    var kept := RetainedClasses(read(item.labelPath), active);
    AscendingIsDistinct(kept);
    ScanStep(items, item, read, active);
    imageList', buckets' := imageList, buckets;
    if |kept| > 0 {
      imageList' := imageList + [item];
      buckets' := AppendToBuckets(buckets, kept, item);
    }
    forall c | c in buckets' ensures buckets'[c] == Bucket(items + [item], read, active, c) {
      assert buckets'[c] == buckets[c] + (if c in kept then [item] else []);
    }
    BucketsAre(buckets', items + [item], read, active);
  }

  /** `make_dataset(split, data_root, data_list, sub_list)`. The list file is
      `listFile` (None when it does not exist) and the label reader is
      `read`. */
  method MakeDataset(split: int, root: string, listFile: Option<seq<string>>, active: seq<int>,
                     read: string -> LabelMap)
    returns (r: Result<Index, IndexError>)
    ensures split !in AllowedSplits ==> r == Err(SplitNotAllowed(split))
    ensures split in AllowedSplits && listFile.None? ==> r == Err(MissingListFile)
    ensures split in AllowedSplits && listFile.Some? ==> r == Build(root, listFile.value, read, active)
  {
    if split !in AllowedSplits {
      return Err(SplitNotAllowed(split));
    }
    if listFile.None? {
      return Err(MissingListFile);
    }
    var lines := listFile.value;
    var imageList: seq<ImageRecord> := [];
    var buckets := EmptyBuckets(active);
    ghost var items: seq<ImageRecord> := [];
    BucketsAre(buckets, items, read, active);
    var l := 0;
    while l < |lines|
      invariant 0 <= l <= |lines|
      invariant ParseAll(root, lines[..l]) == Ok(items)
      invariant Index(imageList, buckets) == IndexFor(items, read, active)
    {
      ParseStep(root, lines, l, items);
      var parsed := ParseLine(root, lines[l]);
      if parsed.Err? {
        ParseAllErrSticks(root, lines, l + 1);
        return Err(BadLine(l, parsed.error));
      }
      var item := parsed.value;
      imageList, buckets := ScanItem(imageList, buckets, item, items, read, active);
      items := items + [item];
      l := l + 1;
    }
    assert lines[..l] == lines;
    return Ok(Index(imageList, buckets));
  }
}
