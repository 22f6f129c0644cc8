/** Single-channel label maps (util/dataset.py): pixel value 0 is background,
    255 is "ignore", every other value is a class id. The numpy calls the
    source makes on them (`np.unique`, `np.where(label == c)` with a sum,
    and the in-place overwrite that binarizes a label) are modelled here. */
module Labels {
  import opened Common

  /** One grayscale pixel (cv2.IMREAD_GRAYSCALE yields uint8). */
  type Pixel = v: int | 0 <= v < 256

  const Background: Pixel := 0
  const Ignore: Pixel := 255

  /** Minimum pixel area of a class for an image to be indexed under it:
      2 * 32 * 32, i.e. at least two cells once the network's stride of 32
      has downsampled the mask. */
  const MinArea: nat := 2 * 32 * 32

  predicate Rectangular(m: seq<seq<Pixel>>)
  {
    forall i :: 0 <= i < |m| ==> |m[i]| == |m[0]|
  }

  /** A decoded label image: rows of equal width. */
  type LabelMap = m: seq<seq<Pixel>> | Rectangular(m) witness []

  /** `label.shape` as (height, width). */
  datatype Shape = Shape(height: nat, width: nat)

  function ShapeOf(m: LabelMap): Shape
  {
    Shape(|m|, if |m| == 0 then 0 else |m[0]|)
  }

  /** Does pixel value `v` occur anywhere in `m`? */
  predicate Present(m: LabelMap, v: int)
  {
    exists row :: row in m && v in row
  }

  function RowCount(row: seq<Pixel>, v: int): (n: nat)
    ensures n <= |row|
  {
    if row == [] then 0 else RowCount(row[..|row| - 1], v) + (if row[|row| - 1] == v then 1 else 0)
  }

  /** `np.where(label == v)` followed by a count: the number of pixels equal
      to `v`. */
  function Count(m: LabelMap, v: int): nat
  {
    if m == [] then 0 else Count(m[..|m| - 1], v) + RowCount(m[|m| - 1], v)
  }

  /** A class never covers more pixels than the label has. */
  lemma {:induction false} CountAtMost(m: LabelMap, v: int)
    ensures Count(m, v) <= |m| * ShapeOf(m).width
  {
    if m != [] {
      var init := m[..|m| - 1];
      CountAtMost(init, v);
      var w := |m[0]|;
      assert init != [] ==> |init[0]| == w;
      assert (|m| - 1) * w + w == |m| * w;
    }
  }

  lemma {:induction false} RowCountPositive(row: seq<Pixel>, v: int)
    ensures RowCount(row, v) > 0 <==> v in row
  {
    if row != [] {
      RowCountPositive(row[..|row| - 1], v);
      assert row == row[..|row| - 1] + [row[|row| - 1]];
    }
  }

  /** A class has positive area exactly when it occurs in the map. */
  lemma {:induction false} CountPositive(m: LabelMap, v: int)
    ensures Count(m, v) > 0 <==> Present(m, v)
  {
    if m != [] {
      var init := m[..|m| - 1];
      CountPositive(init, v);
      RowCountPositive(m[|m| - 1], v);
      assert m == init + [m[|m| - 1]];
      if Present(m, v) {
        var row :| row in m && v in row;
        assert row in init || row == m[|m| - 1];
      }
    }
  }

  /** Values in [v, 256) present in `m`, ascending. */
  function UniqueFrom(m: LabelMap, v: nat): (r: seq<Pixel>)
    requires v <= 256
    ensures forall x :: x in r <==> v <= x < 256 && Present(m, x)
    ensures forall i, j :: 0 <= i < j < |r| ==> r[i] < r[j]
    ensures forall k :: 0 <= k < |r| ==> v <= r[k]
    decreases 256 - v
  {
    if v == 256 then []
    else if Present(m, v) then [v as Pixel] + UniqueFrom(m, v + 1)
    else UniqueFrom(m, v + 1)
  }

  /** `np.unique(label).tolist()`: the pixel values that occur, ascending. */
  function Unique(m: LabelMap): (r: seq<Pixel>)
    ensures forall x :: x in r <==> 0 <= x < 256 && Present(m, x)
    ensures forall i, j :: 0 <= i < j < |r| ==> r[i] < r[j]
  {
    UniqueFrom(m, 0)
  }

  /** The class ids of a label map (util/dataset.py:51-56 and 172-176):
      `np.unique` with 0 and 255 removed. Both are removed with
      `list.remove`, which deletes the single occurrence that `np.unique`
      leaves. */
  function LabelClasses(m: LabelMap): (r: seq<int>)
    ensures forall c :: c in r <==> c != Background && c != Ignore && Present(m, c)
    ensures Ascending(r)
  {
    var u := Unique(m);
    var r := Without(u, [Background as int, Ignore as int]);
    WithoutAscending(u, [Background as int, Ignore as int]);
    r
  }

  /** The binarization rule applied to one pixel (util/dataset.py:192-197,
      231-235): the label is zeroed, pixels of the chosen class are set to 1,
      then pixels that were 255 are set back to 255 (the last write wins). */
  function BinarizePixel(v: Pixel, c: int): (b: Pixel)
    ensures b == Ignore <==> v == Ignore
    ensures b == 1 <==> v == c && v != Ignore
    ensures b == 0 <==> v != c && v != Ignore
  {
    if v == Ignore then Ignore else if v == c then 1 else 0
  }

  function BinarizeRow(row: seq<Pixel>, c: int): (r: seq<Pixel>)
    ensures |r| == |row|
    ensures forall j :: 0 <= j < |row| ==> r[j] == BinarizePixel(row[j], c)
  {
    seq(|row|, j requires 0 <= j < |row| => BinarizePixel(row[j], c))
  }

  /** The label as the episode uses it: foreground 1 for the chosen class,
      255 kept as "ignore", everything else background. */
  function Binarized(m: LabelMap, c: int): (r: LabelMap)
    ensures |r| == |m|
    ensures forall i :: 0 <= i < |m| ==> r[i] == BinarizeRow(m[i], c)
  {
    seq(|m|, i requires 0 <= i < |m| => BinarizeRow(m[i], c))
  }

  /** Every pixel is 0, 1 or 255. */
  predicate IsBinary(m: LabelMap)
  {
    forall i, j :: 0 <= i < |m| && 0 <= j < |m[i]| ==> m[i][j] in {0, 1, 255}
  }

  /** The binarized label keeps the shape; a pixel is 1 iff it was the
      chosen class (never 255), 255 iff it was 255, and 0 otherwise. */
  lemma BinarizedPixels(m: LabelMap, c: int)
    ensures ShapeOf(Binarized(m, c)) == ShapeOf(m)
    ensures IsBinary(Binarized(m, c))
    ensures forall i, j :: 0 <= i < |m| && 0 <= j < |m[i]| ==>
      (Binarized(m, c)[i][j] == 1 <==> m[i][j] == c && m[i][j] != Ignore) &&
      (Binarized(m, c)[i][j] == Ignore <==> m[i][j] == Ignore) &&
      (Binarized(m, c)[i][j] == 0 <==> m[i][j] != c && m[i][j] != Ignore)
  {
  }

  /** Binarizing an already binary label against class 1 leaves it as it is;
      in particular binarizing twice is the same as binarizing once. */
  lemma BinarizeBinaryIsIdentity(m: LabelMap)
    requires IsBinary(m)
    ensures Binarized(m, 1) == m
  {
    forall i | 0 <= i < |m| ensures Binarized(m, 1)[i] == m[i] {
      assert forall j :: 0 <= j < |m[i]| ==> m[i][j] in {0, 1, 255};
    }
  }

  lemma BinarizeIdempotent(m: LabelMap, c: int)
    ensures Binarized(Binarized(m, c), 1) == Binarized(m, c)
  {
    BinarizedPixels(m, c);
    BinarizeBinaryIsIdentity(Binarized(m, c));
  }

  /** The foreground of a binarized label is exactly the chosen class's area. */
  lemma {:induction false} BinarizedForeground(m: LabelMap, c: int)
    requires c != Ignore
    ensures Count(Binarized(m, c), 1) == Count(m, c)
  {
    if m != [] {
      var n := |m| - 1;
      BinarizedForeground(m[..n], c);
      assert Binarized(m, c)[..n] == Binarized(m[..n], c);
      RowForeground(m[n], c);
    }
  }

  lemma {:induction false} RowForeground(row: seq<Pixel>, c: int)
    requires c != Ignore
    ensures RowCount(BinarizeRow(row, c), 1) == RowCount(row, c)
  {
    if row != [] {
      var n := |row| - 1;
      RowForeground(row[..n], c);
      assert BinarizeRow(row, c)[..n] == BinarizeRow(row[..n], c);
    }
  }

  /** The contents of a 2-D label array, as a label map. */
  ghost function Contents(a: array2<Pixel>): (m: LabelMap)
    reads a
    ensures ShapeOf(m) == Shape(a.Length0, if a.Length0 == 0 then 0 else a.Length1)
  {
    seq(a.Length0, i reads a requires 0 <= i < a.Length0 =>
      seq(a.Length1, j reads a requires 0 <= j < a.Length1 => a[i, j]))
  }

  /** The in-place overwrite of the label array (util/dataset.py:192-197 for
      the query, 231-235 for each support): afterwards the array holds the
      binarized label. */
  method BinarizeInPlace(a: array2<Pixel>, c: int)
    modifies a
    ensures forall i, j :: 0 <= i < a.Length0 && 0 <= j < a.Length1 ==>
      a[i, j] == BinarizePixel(old(a[i, j]), c)
    ensures Contents(a) == Binarized(old(Contents(a)), c)
  {
    ghost var before := Contents(a);
    var i := 0;
    while i < a.Length0
      invariant 0 <= i <= a.Length0
      invariant forall p, q :: 0 <= p < i && 0 <= q < a.Length1 ==>
        a[p, q] == BinarizePixel(old(a[p, q]), c)
      invariant forall p, q :: i <= p < a.Length0 && 0 <= q < a.Length1 ==>
        a[p, q] == old(a[p, q])
    {
      var j := 0;
      while j < a.Length1
        invariant 0 <= j <= a.Length1
        invariant forall p, q :: 0 <= p < i && 0 <= q < a.Length1 ==>
          a[p, q] == BinarizePixel(old(a[p, q]), c)
        invariant forall q :: 0 <= q < j ==> a[i, q] == BinarizePixel(old(a[i, q]), c)
        invariant forall q :: j <= q < a.Length1 ==> a[i, q] == old(a[i, q])
        invariant forall p, q :: i < p < a.Length0 && 0 <= q < a.Length1 ==>
          a[p, q] == old(a[p, q])
      {
        a[i, j] := BinarizePixel(a[i, j], c);
        j := j + 1;
      }
      i := i + 1;
    }
    forall p | 0 <= p < a.Length0 ensures Contents(a)[p] == Binarized(before, c)[p] {
      assert forall q :: 0 <= q < a.Length1 ==> Contents(a)[p][q] == Binarized(before, c)[p][q];
    }
  }
}
