/** Small shared vocabulary: the error-carrying result, optional values,
    Python's `range`, `list.index` and integer sums. */
module Common {

  datatype Option<+T> = None | Some(value: T)

  /** An operation that either produces a value or raises one of the
      source's exceptions. */
  datatype Result<+T, +E> = Ok(value: T) | Err(error: E)

  /** Python's `range(lo, hi)`. */
  function Range(lo: int, hi: int): (r: seq<int>)
    ensures |r| == if lo < hi then hi - lo else 0
    ensures forall k :: 0 <= k < |r| ==> r[k] == lo + k
    ensures forall x :: x in r <==> lo <= x < hi
  {
    var r := seq(if lo < hi then hi - lo else 0, k => lo + k);
    assert forall x :: lo <= x < hi ==> x in r by {
      forall x | lo <= x < hi ensures x in r { assert r[x - lo] == x; }
    }
    r
  }

  /** Python's `range(lo, hi, 4)`, the only stride the class table uses. */
  function RangeBy4(lo: int, hi: int): (r: seq<int>)
    ensures forall x :: x in r <==> lo <= x < hi && (x - lo) % 4 == 0
    ensures |r| == if lo < hi then (hi - lo + 3) / 4 else 0
    ensures Ascending(r)
  {
    var r := seq(if lo < hi then (hi - lo + 3) / 4 else 0, k => lo + 4 * k);
    assert forall x :: lo <= x < hi && (x - lo) % 4 == 0 ==> x in r by {
      forall x | lo <= x < hi && (x - lo) % 4 == 0 ensures x in r { assert r[(x - lo) / 4] == x; }
    }
    r
  }

  /** The elements of `xs` that are not in `ys`, in the order of `xs`
      (Python's `list(set(xs) - set(ys))` when `xs` is ascending). */
  function Without(xs: seq<int>, ys: seq<int>): (r: seq<int>)
    ensures forall x :: x in r <==> x in xs && x !in ys
    ensures |r| <= |xs|
  {
    if xs == [] then []
    else (if xs[0] in ys then [] else [xs[0]]) + Without(xs[1..], ys)
  }

  /** Removing elements keeps an ascending sequence ascending. */
  lemma {:induction false} WithoutAscending(xs: seq<int>, ys: seq<int>)
    requires Ascending(xs)
    ensures Ascending(Without(xs, ys))
  {
    if xs != [] {
      assert Ascending(xs[1..]) by {
        forall i, j | 0 <= i < j < |xs[1..]| ensures xs[1..][i] < xs[1..][j] {
          assert xs[1..][i] == xs[i + 1] && xs[1..][j] == xs[j + 1];
        }
      }
      WithoutAscending(xs[1..], ys);
      var rest := Without(xs[1..], ys);
      forall j | 0 <= j < |rest| ensures xs[0] < rest[j] {
        assert rest[j] in rest;
        var k :| 0 <= k < |xs[1..]| && xs[1..][k] == rest[j];
        assert xs[k + 1] == rest[j];
      }
    }
  }

  /** No element occurs twice. */
  predicate Distinct<T(==)>(s: seq<T>)
  {
    forall i, j :: 0 <= i < j < |s| ==> s[i] != s[j]
  }

  /** Strictly ascending (hence distinct). */
  predicate Ascending(s: seq<int>)
  {
    forall i, j :: 0 <= i < j < |s| ==> s[i] < s[j]
  }

  /** An ascending sequence is free of duplicates. */
  lemma AscendingIsDistinct(s: seq<int>)
    requires Ascending(s)
    ensures Distinct(s)
  {
  }

  /** A distinct list has as many elements as its set. */
  lemma {:induction false} DistinctCard<T>(s: seq<T>)
    requires Distinct(s)
    ensures |Elems(s)| == |s|
  {
    if s != [] {
      var init := s[..|s| - 1];
      var last := s[|s| - 1];
      DistinctCard(init);
      assert Elems(s) == Elems(init) + {last} by {
        assert s == init + [last];
      }
      assert last !in Elems(init);
    }
  }

  /** A subset is no larger than its superset. */
  lemma {:induction false} SubsetCard<T>(a: set<T>, b: set<T>)
    requires a <= b
    ensures |a| <= |b|
  {
    if a != {} {
      var x :| x in a;
      SubsetCard(a - {x}, b - {x});
    }
  }

  /** Python's `list.index`: the first position of `x` in `s`. */
  function IndexOf<T(==)>(s: seq<T>, x: T): (k: nat)
    requires x in s
    ensures k < |s| && s[k] == x
    ensures forall j :: 0 <= j < k ==> s[j] != x
  {
    if s[0] == x then 0 else 1 + IndexOf(s[1..], x)
  }

  /** The set of elements of a sequence. */
  function Elems<T>(s: seq<T>): set<T>
  {
    set x | x in s
  }

  /** Sum of a sequence of naturals. */
  function Sum(s: seq<nat>): nat
  {
    if s == [] then 0 else Sum(s[..|s| - 1]) + s[|s| - 1]
  }

  function Min(a: int, b: int): int
  {
    if a <= b then a else b
  }

  lemma MulMonotone(a: nat, b: nat, c: nat)
    requires a <= b
    ensures a * c <= b * c
  {
  }

  /** Division with remainder has one answer: `q, r` with `r < d` and
      `x == q * d + r` are `x / d` and `x % d`. */
  lemma DivModUnique(x: nat, d: nat, q: nat, r: nat)
    requires d > 0 && r < d && x == q * d + r
    ensures x / d == q && x % d == r
  {
    var q', r' := x / d, x % d;
    assert x == q' * d + r';
    MulGap(q, q', d);
    MulGap(q', q, d);
  }

  /** A larger multiplier adds at least one more `d`. */
  lemma MulGap(a: nat, b: nat, d: nat)
    ensures a < b ==> a * d + d <= b * d
  {
    if a < b {
      MulMonotone(a + 1, b, d);
      assert (a + 1) * d == a * d + d;
    }
  }
}
