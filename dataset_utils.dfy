/**
  `extract_data` of `dataset/utils.py`: keeps the trailing `k` dimensions of an array by indexing
  position 0 on every leading axis and `:` on the rest.
 */
module DatasetUtils {
  import opened Wrappers
  import opened NdArrays

  /** The exceptions `extract_data` can end with. */
  datatype ExtractError =
    | LastDimensionsTooLarge   // the ValueError for more trailing dimensions than the array has
    | IndicesOverrun           // the IndexError of writing past the end of the index list
    | Indexing(e: IndexError)  // the IndexError numpy raises for the index tuple

  /** `shape.count(1)`: how many axes have size 1. */
  function CountOnes(shape: seq<nat>): (c: nat)
    ensures c == multiset(shape)[1]
    ensures c <= |shape|
  {
    if |shape| == 0 then 0
    else
      assert shape == [shape[0]] + shape[1..];
      (if shape[0] == 1 then 1 else 0) + CountOnes(shape[1..])
  }

  /** The default number of trailing dimensions: `len(arr.shape) - arr.shape.count(1)`. */
  function DefaultLastDimensions(shape: seq<nat>): (k: nat)
    ensures k <= |shape|
    ensures k == |shape| - multiset(shape)[1]
  {
    |shape| - CountOnes(shape)
  }

  /** The number of trailing dimensions `extract_data` keeps: the one given, or the default. */
  function EffectiveLastDimensions(shape: seq<nat>, lastDimensions: Option<int>): (k: int)
    ensures lastDimensions.Some? ==> k == lastDimensions.value
    ensures lastDimensions.None? ==> 0 <= k <= |shape| && k == |shape| - multiset(shape)[1]
  {
    match lastDimensions
    case Some(k) => k
    case None => DefaultLastDimensions(shape)
  }

  /** Each of the first `d` axes has at least one position, so position 0 exists on it. */
  predicate LeadingAxesNonEmpty(shape: seq<nat>, d: int)
    requires d <= |shape|
  {
    forall i :: 0 <= i < d ==> shape[i] >= 1
  }

  /**
    What `extract_data` returns, stated without index tuples: with `d = ndim - k` leading axes
    dropped, the sub-array at position 0 of each of them, which in row-major order is the first
    `Product(shape[d..])` elements.
   */
  function Extract<T>(arr: NdArray<T>, lastDimensions: Option<int>): (r: Result<NdArray<T>, ExtractError>)
    requires arr.Valid()
    ensures r.Ok? ==> r.value.Valid()
  {
    var ndim := |arr.shape|;
    var k := EffectiveLastDimensions(arr.shape, lastDimensions);
    if k > ndim then Err(LastDimensionsTooLarge)
    else if k < 0 then Err(IndicesOverrun)
    else if !LeadingAxesNonEmpty(arr.shape, ndim - k) then Err(Indexing(PositionOutOfBounds))
    else
      ProductOfSuffix(arr.shape, ndim - k);
      var trailing := arr.shape[ndim - k..];
      Ok(NdArray(trailing, arr.data[..Product(trailing)]))
  }

  /**
    The index list: `ndim` full slices, then position 0 written over each of the first
    `ndim - lastDimensions` entries in turn. A negative count runs the loop past the end of the list.
   */
  method DynamicIndices(ndim: nat, lastDimensions: int) returns (r: Result<seq<Axis>, ExtractError>)
    ensures r.Ok? <==> lastDimensions >= 0
    ensures r.Err? ==> r.error == IndicesOverrun
    ensures r.Ok? ==> |r.value| == ndim
    ensures r.Ok? ==> forall i :: 0 <= i < ndim ==> r.value[i] == (if i < ndim - lastDimensions then Pick(0) else Full)
  {
    var indices := Fulls(ndim);
    var i := 0;
    while i < ndim - lastDimensions
      invariant 0 <= i <= ndim
      invariant i == 0 || i <= ndim - lastDimensions
      invariant |indices| == ndim
      invariant forall j :: 0 <= j < ndim ==> indices[j] == (if j < i then Pick(0) else Full)
    {
      if i >= |indices| {
        return Err(IndicesOverrun);
      }
      indices := indices[i := Pick(0)];
      i := i + 1;
    }
    r := Ok(indices);
  }

  /** `extract_data(arr, last_dimensions)`. */
  method ExtractData<T>(arr: NdArray<T>, lastDimensions: Option<int> := None)
    returns (r: Result<NdArray<T>, ExtractError>)
    requires arr.Valid()
    ensures r == Extract(arr, lastDimensions)
    ensures lastDimensions.Some? && lastDimensions.value > |arr.shape| ==> r == Err(LastDimensionsTooLarge)
    ensures r.Ok? ==>
      var k := EffectiveLastDimensions(arr.shape, lastDimensions);
      && 0 <= k <= |arr.shape|
      && r.value.Valid()
      && r.value.shape == arr.shape[|arr.shape| - k..]
  {
    var ndim := |arr.shape|;
    var k: int;
    if lastDimensions.Some? {
      if lastDimensions.value > ndim {
        return Err(LastDimensionsTooLarge);
      }
      k := lastDimensions.value;
    } else {
      k := ndim - CountOnes(arr.shape);
    }
    var indices := DynamicIndices(ndim, k);
    if indices.Err? {
      return Err(indices.error);
    }
    var d := ndim - k;
    assert indices.value == Picks(d) + Fulls(ndim - d) by {
      forall i | 0 <= i < ndim ensures indices.value[i] == (Picks(d) + Fulls(ndim - d))[i] {
      }
    }
    var selected := Select(arr, indices.value);
    ExtractIsSelection(arr, lastDimensions);
    match selected
    case Ok(v) => r := Ok(v);
    case Err(e) => r := Err(Indexing(e));
  }

  /**
    The reference definition agrees with numpy indexing by the index tuple of position 0 on
    each dropped leading axis and `:` on each kept one, including numpy's failure.
   */
  lemma ExtractIsSelection<T>(arr: NdArray<T>, lastDimensions: Option<int>)
    requires arr.Valid()
    requires 0 <= EffectiveLastDimensions(arr.shape, lastDimensions) <= |arr.shape|
    ensures
      var k := EffectiveLastDimensions(arr.shape, lastDimensions);
      Extract(arr, lastDimensions) ==
        match Select(arr, Picks(|arr.shape| - k) + Fulls(k))
        case Ok(v) => Ok(v)
        case Err(e) => Err(Indexing(e))
  {
    var k := EffectiveLastDimensions(arr.shape, lastDimensions);
    var d := |arr.shape| - k;
    var idx := Picks(d) + Fulls(k);
    if LeadingAxesNonEmpty(arr.shape, d) {
      SelectLeadingZeros(arr.shape, arr.data, d);
    } else {
      var i :| 0 <= i < d && arr.shape[i] < 1;
      assert idx[i] == Pick(0);
    }
  }

  /**
    Each element of the result at multi-index `j` is the element of `arr` at `(0, ..., 0) ++ j`,
    with one 0 per dropped leading axis.
   */
  lemma ExtractElements<T>(arr: NdArray<T>, lastDimensions: Option<int>, j: seq<nat>)
    requires arr.Valid() && Extract(arr, lastDimensions).Ok?
    requires InBounds(Extract(arr, lastDimensions).value.shape, j)
    ensures
      var d := |arr.shape| - EffectiveLastDimensions(arr.shape, lastDimensions);
      && 0 <= d <= |arr.shape|
      && InBounds(arr.shape, Zeros(d) + j)
      && Get(Extract(arr, lastDimensions).value, j) == Get(arr, Zeros(d) + j)
  {
    var d := |arr.shape| - EffectiveLastDimensions(arr.shape, lastDimensions);
    OffsetOfLeadingZeros(arr.shape, d, j);
  }

  /** Keeping every dimension returns the array unchanged. */
  lemma ExtractAllDimensionsIsIdentity<T>(arr: NdArray<T>)
    requires arr.Valid()
    ensures Extract(arr, Some(|arr.shape|)) == Ok(arr)
  {
    assert arr.shape[0..] == arr.shape;
    assert arr.data[..Product(arr.shape)] == arr.data;
  }

  /** With the default, neither the ValueError nor the index-list overrun can happen. */
  lemma DefaultNeverRejectsCount<T>(arr: NdArray<T>)
    requires arr.Valid()
    ensures Extract(arr, None).Ok? || Extract(arr, None) == Err(Indexing(PositionOutOfBounds))
    ensures Extract(arr, None).Ok? <==> LeadingAxesNonEmpty(arr.shape, multiset(arr.shape)[1])
  {
  }

  lemma {:induction false} CountOnesOfConcat(a: seq<nat>, b: seq<nat>)
    ensures CountOnes(a + b) == CountOnes(a) + CountOnes(b)
  {
    assert multiset(a + b) == multiset(a) + multiset(b);
  }

  lemma {:induction false} ProductOfUnitPrefix(shape: seq<nat>, d: nat)
    requires d <= |shape| && forall i :: 0 <= i < d ==> shape[i] == 1
    ensures Product(shape) == Product(shape[d..])
    decreases d
  {
    if d > 0 {
      assert shape[1..][d - 1..] == shape[d..];
      ProductOfUnitPrefix(shape[1..], d - 1);
    }
  }

  /**
    When every axis of size 1 comes before every other axis, the default drops exactly those
    unit axes and keeps all elements: the result is `arr` squeezed.
   */
  lemma DefaultSqueezesLeadingUnitAxes<T>(arr: NdArray<T>, d: nat)
    requires arr.Valid() && d <= |arr.shape|
    requires forall i :: 0 <= i < d ==> arr.shape[i] == 1
    requires forall i :: d <= i < |arr.shape| ==> arr.shape[i] != 1
    ensures Extract(arr, None) == Ok(NdArray(arr.shape[d..], arr.data))
  {
    var shape := arr.shape;
    assert shape == shape[..d] + shape[d..];
    CountOnesOfConcat(shape[..d], shape[d..]);
    assert multiset(shape[..d])[1] == d by {
      assert shape[..d] == seq(d, _ => 1);
      UnitsCount(d);
    }
    assert 1 !in multiset(shape[d..]);
    ProductOfUnitPrefix(shape, d);
    assert arr.data[..Product(shape[d..])] == arr.data;
  }

  lemma {:induction false} UnitsCount(d: nat)
    ensures multiset(seq(d, _ => 1 as nat))[1] == d
    decreases d
  {
    if d > 0 {
      assert seq(d, _ => 1 as nat) == seq(d - 1, _ => 1 as nat) + [1];
      UnitsCount(d - 1);
    }
  }

  /** (1, 1, 1, 1600, 2000) gives (1600, 2000) by default. */
  lemma DefaultDropsThreeUnitAxes<T>(arr: NdArray<T>)
    requires arr.Valid() && arr.shape == [1, 1, 1, 1600, 2000]
    ensures Extract(arr, None) == Ok(NdArray([1600, 2000], arr.data))
  {
    DefaultSqueezesLeadingUnitAxes(arr, 3);
  }

  /** (1, 1600, 2000) gives (1600, 2000) by default. */
  lemma DefaultDropsOneUnitAxis<T>(arr: NdArray<T>)
    requires arr.Valid() && arr.shape == [1, 1600, 2000]
    ensures Extract(arr, None) == Ok(NdArray([1600, 2000], arr.data))
  {
    DefaultSqueezesLeadingUnitAxes(arr, 1);
  }

  /** (1, 1, 2, 1600, 2000) gives (2, 1600, 2000) by default. */
  lemma DefaultKeepsNonUnitAxis<T>(arr: NdArray<T>)
    requires arr.Valid() && arr.shape == [1, 1, 2, 1600, 2000]
    ensures Extract(arr, None) == Ok(NdArray([2, 1600, 2000], arr.data))
  {
    DefaultSqueezesLeadingUnitAxes(arr, 2);
  }

  /** (1, 1, 1600, 2000) with three trailing dimensions gives (1, 1600, 2000) and all elements. */
  lemma GivenThreeDimensions<T>(arr: NdArray<T>)
    requires arr.Valid() && arr.shape == [1, 1, 1600, 2000]
    ensures Extract(arr, Some(3)) == Ok(NdArray([1, 1600, 2000], arr.data))
  {
    ProductOfUnitPrefix(arr.shape, 1);
    assert arr.shape[1..] == [1, 1600, 2000];
    assert arr.data[..Product(arr.shape[1..])] == arr.data;
  }

  /** (1, 1, 1600, 2000) with one trailing dimension gives the first row, of shape (2000). */
  lemma GivenOneDimension<T>(arr: NdArray<T>)
    requires arr.Valid() && arr.shape == [1, 1, 1600, 2000]
    ensures |arr.data| >= 2000
    ensures Extract(arr, Some(1)) == Ok(NdArray([2000], arr.data[..2000]))
  {
    assert Product(arr.shape) == 3200000 by {
      assert [2000][1..] == [];
      assert [1600, 2000][1..] == [2000];
      assert [1, 1600, 2000][1..] == [1600, 2000];
      assert arr.shape[1..] == [1, 1600, 2000];
    }
    assert arr.shape[3..] == [2000];
    assert Product([2000]) == 2000;
  }

  /**
    (1600, 1, 2000) gives (1, 2000) by default: the default drops one leading axis because one
    axis has size 1, so the unit axis itself survives and the first row of 2000 elements is kept.
   */
  lemma DefaultDropsLeadingAxisNotUnitAxis<T>(arr: NdArray<T>)
    requires arr.Valid() && arr.shape == [1600, 1, 2000]
    ensures |arr.data| >= 2000
    ensures Extract(arr, None) == Ok(NdArray([1, 2000], arr.data[..2000]))
  {
    assert CountOnes(arr.shape) == 1 by {
      assert arr.shape[1..][1..] == [2000];
    }
    assert arr.shape[1..] == [1, 2000];
    assert Product([1, 2000]) == 2000 by {
      assert [1, 2000][1..] == [2000];
    }
  }
}
