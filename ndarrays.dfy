/**
  N-dimensional arrays as numpy holds them: a shape and the elements in row-major (C) order,
  together with numpy's basic indexing by a tuple of integer positions and full slices `:`.
  Both the readers (`array[:]`) and `extract_data` (`arr[tuple(dynamic_indices)]`) index this way.
 */
module NdArrays {
  import opened Wrappers

  /** Number of elements of an array of this shape (1 for a 0-dimensional array). */
  function Product(shape: seq<nat>): nat
  {
    if |shape| == 0 then 1 else shape[0] * Product(shape[1..])
  }

  /** An array of element type T; `Valid` ties the length of the flat contents to the shape. */
  datatype NdArray<T> = NdArray(shape: seq<nat>, data: seq<T>)
  {
    predicate Valid()
    {
      |data| == Product(shape)
    }
  }

  lemma MulMonotone(a: nat, b: nat, p: nat)
    requires a <= b
    ensures a * p <= b * p
  {
  }

  /** A multi-index addresses an element when it has one position per axis, each within its axis. */
  predicate InBounds(shape: seq<nat>, idx: seq<nat>)
  {
    |idx| == |shape| && forall i :: 0 <= i < |idx| ==> idx[i] < shape[i]
  }

  /** Row-major position of the element at multi-index `idx`. */
  function Offset(shape: seq<nat>, idx: seq<nat>): (r: nat)
    requires InBounds(shape, idx)
    ensures r < Product(shape)
  {
    if |shape| == 0 then 0
    else
      var rest := Offset(shape[1..], idx[1..]);
      MulMonotone(idx[0] + 1, shape[0], Product(shape[1..]));
      idx[0] * Product(shape[1..]) + rest
  }

  /** The element `a[idx]`. */
  function Get<T>(a: NdArray<T>, idx: seq<nat>): T
    requires a.Valid() && InBounds(a.shape, idx)
  {
    a.data[Offset(a.shape, idx)]
  }

  /** `d` zeros: the multi-index prefix selecting position 0 on each of `d` axes. */
  function Zeros(d: nat): (z: seq<nat>)
    ensures |z| == d && forall i :: 0 <= i < d ==> z[i] == 0
  {
    seq(d, _ => 0)
  }

  /** One entry of a numpy basic-index tuple: an integer position, or the full slice `:`. */
  datatype Axis = Pick(pos: nat) | Full

  /** What numpy raises when an index tuple does not fit the array. */
  datatype IndexError = TooManyIndices | PositionOutOfBounds

  /** Numpy accepts an index tuple no longer than the rank whose integer entries lie within their axes. */
  predicate Indexable(shape: seq<nat>, idx: seq<Axis>)
  {
    |idx| <= |shape| && forall i :: 0 <= i < |idx| && idx[i].Pick? ==> idx[i].pos < shape[i]
  }

  /** Shape of `a[idx]`: an integer entry removes its axis, `:` keeps it, missing trailing entries keep theirs. */
  function SelectShape(shape: seq<nat>, idx: seq<Axis>): seq<nat>
    requires |idx| <= |shape|
  {
    if |idx| == 0 then shape
    else if idx[0].Pick? then SelectShape(shape[1..], idx[1..])
    else [shape[0]] + SelectShape(shape[1..], idx[1..])
  }

  /** The `i`-th block of `width` consecutive elements: the contents of `a[i]` along the first axis. */
  function Block<T>(data: seq<T>, width: nat, i: nat): (r: seq<T>)
    requires (i + 1) * width <= |data|
    ensures |r| == width
  {
    data[i * width .. (i + 1) * width]
  }

  /** Contents of `a[idx]`, in row-major order. */
  function SelectData<T>(shape: seq<nat>, data: seq<T>, idx: seq<Axis>): (r: seq<T>)
    requires Indexable(shape, idx) && |data| == Product(shape)
    ensures |r| == Product(SelectShape(shape, idx))
    decreases |idx|, 1
  {
    if |idx| == 0 then data
    else match idx[0]
      case Pick(i) =>
        MulMonotone(i + 1, shape[0], Product(shape[1..]));
        SelectData(shape[1..], Block(data, Product(shape[1..]), i), idx[1..])
      case Full =>
        var r := SelectBlocks(shape, data, idx, shape[0]);
        assert ([shape[0]] + SelectShape(shape[1..], idx[1..]))[1..] == SelectShape(shape[1..], idx[1..]);
        r
  }

  /** The selections `a[i][idx[1..]]` for the first `n` positions `i` of the first axis, concatenated. */
  function SelectBlocks<T>(shape: seq<nat>, data: seq<T>, idx: seq<Axis>, n: nat): (r: seq<T>)
    requires Indexable(shape, idx) && |data| == Product(shape)
    requires 0 < |idx| && n <= shape[0]
    ensures |r| == n * Product(SelectShape(shape[1..], idx[1..]))
    decreases |idx|, 0, n
  {
    if n == 0 then []
    else
      MulMonotone(n, shape[0], Product(shape[1..]));
      var block := SelectData(shape[1..], Block(data, Product(shape[1..]), n - 1), idx[1..]);
      SelectBlocks(shape, data, idx, n - 1) + block
  }

  /** `a[idx]` with numpy's failures: too many indices, or an integer position beyond its axis. */
  function Select<T>(a: NdArray<T>, idx: seq<Axis>): (r: Result<NdArray<T>, IndexError>)
    requires a.Valid()
    ensures r.Ok? <==> Indexable(a.shape, idx)
    ensures r.Err? ==> (r.error == TooManyIndices <==> |idx| > |a.shape|)
    ensures r.Ok? ==> r.value.Valid()
  {
    if |idx| > |a.shape| then Err(TooManyIndices)
    else if !Indexable(a.shape, idx) then Err(PositionOutOfBounds)
    else Ok(NdArray(SelectShape(a.shape, idx), SelectData(a.shape, a.data, idx)))
  }

  /** `m` full slices. */
  function Fulls(m: nat): (f: seq<Axis>)
    ensures |f| == m && forall i :: 0 <= i < m ==> f[i] == Full
  {
    seq(m, _ => Full)
  }

  /** `d` integer entries 0. */
  function Picks(d: nat): (p: seq<Axis>)
    ensures |p| == d && forall i :: 0 <= i < d ==> p[i] == Pick(0)
  {
    seq(d, _ => Pick(0))
  }

  /** Selecting with full slices only changes nothing: `a[:, ..., :]` is `a`. */
  lemma {:induction false} SelectFullsIsIdentity<T>(shape: seq<nat>, data: seq<T>, m: nat)
    requires m <= |shape| && |data| == Product(shape)
    ensures Indexable(shape, Fulls(m))
    ensures SelectShape(shape, Fulls(m)) == shape
    ensures SelectData(shape, data, Fulls(m)) == data
    decreases m, 1
  {
    if m > 0 {
      assert Fulls(m)[1..] == Fulls(m - 1);
      SelectFullsShape(shape[1..], m - 1);
      SelectBlocksOfFulls(shape, data, m, shape[0]);
      assert shape == [shape[0]] + shape[1..];
    }
  }

  lemma {:induction false} SelectFullsShape(shape: seq<nat>, m: nat)
    requires m <= |shape|
    ensures SelectShape(shape, Fulls(m)) == shape
    decreases m
  {
    if m > 0 {
      assert Fulls(m)[1..] == Fulls(m - 1);
      SelectFullsShape(shape[1..], m - 1);
      assert shape == [shape[0]] + shape[1..];
    }
  }

  /** Concatenating the first `n` blocks of the first axis gives back the first `n * width` elements. */
  lemma {:induction false} SelectBlocksOfFulls<T>(shape: seq<nat>, data: seq<T>, m: nat, n: nat)
    requires 0 < m <= |shape| && |data| == Product(shape) && n <= shape[0]
    ensures Indexable(shape, Fulls(m))
    ensures n * Product(shape[1..]) <= |data|
    ensures SelectBlocks(shape, data, Fulls(m), n) == data[..n * Product(shape[1..])]
    decreases m, 0, n
  {
    var p := Product(shape[1..]);
    MulMonotone(n, shape[0], p);
    if n > 0 {
      assert Fulls(m)[1..] == Fulls(m - 1);
      MulMonotone(n - 1, n, p);
      SelectBlocksOfFulls(shape, data, m, n - 1);
      var block := Block(data, p, n - 1);
      SelectFullsIsIdentity(shape[1..], block, m - 1);
      assert (n - 1) * p + p == n * p;
      assert data[..(n - 1) * p] + block == data[..n * p];
    }
  }

  /** Product of the trailing axes never exceeds that of the whole shape when the dropped axes are non-empty. */
  lemma {:induction false} ProductOfSuffix(shape: seq<nat>, d: nat)
    requires d <= |shape| && forall i :: 0 <= i < d ==> shape[i] >= 1
    ensures Product(shape[d..]) <= Product(shape)
    decreases d
  {
    if d > 0 {
      assert shape[1..][d - 1..] == shape[d..];
      ProductOfSuffix(shape[1..], d - 1);
      MulMonotone(1, shape[0], Product(shape[1..]));
    }
  }

  /**
    Position 0 on each of the `d` leading axes followed by full slices selects the first
    `Product(shape[d..])` elements, with the trailing shape.
   */
  lemma {:induction false} SelectLeadingZeros<T>(shape: seq<nat>, data: seq<T>, d: nat)
    requires d <= |shape| && |data| == Product(shape)
    requires forall i :: 0 <= i < d ==> shape[i] >= 1
    ensures Indexable(shape, Picks(d) + Fulls(|shape| - d))
    ensures SelectShape(shape, Picks(d) + Fulls(|shape| - d)) == shape[d..]
    ensures Product(shape[d..]) <= |data|
    ensures SelectData(shape, data, Picks(d) + Fulls(|shape| - d)) == data[..Product(shape[d..])]
    decreases d
  {
    var idx := Picks(d) + Fulls(|shape| - d);
    ProductOfSuffix(shape, d);
    if d == 0 {
      assert idx == Fulls(|shape|);
      SelectFullsIsIdentity(shape, data, |shape|);
    } else {
      var p := Product(shape[1..]);
      assert idx[1..] == Picks(d - 1) + Fulls(|shape[1..]| - (d - 1));
      assert shape[1..][d - 1..] == shape[d..];
      MulMonotone(1, shape[0], p);
      var block := Block(data, p, 0);
      SelectLeadingZeros(shape[1..], block, d - 1);
      ProductOfSuffix(shape[1..], d - 1);
    }
  }

  /** The element at `(0, ..., 0) ++ j` sits at the same row-major position as `j` in the trailing shape. */
  lemma {:induction false} OffsetOfLeadingZeros(shape: seq<nat>, d: nat, j: seq<nat>)
    requires d <= |shape| && forall i :: 0 <= i < d ==> shape[i] >= 1
    requires InBounds(shape[d..], j)
    ensures InBounds(shape, Zeros(d) + j)
    ensures Offset(shape, Zeros(d) + j) == Offset(shape[d..], j)
    decreases d
  {
    if d > 0 {
      assert (Zeros(d) + j)[1..] == Zeros(d - 1) + j;
      assert shape[1..][d - 1..] == shape[d..];
      OffsetOfLeadingZeros(shape[1..], d - 1, j);
    } else {
      assert Zeros(d) + j == j;
    }
  }
}
