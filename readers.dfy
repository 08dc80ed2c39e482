/**
  The image readers of `io/_io.py`: one reader per on-disk format, each bound to a location.
  What the zarr, N5Store, tifffile and pims libraries would find on disk is a `Store` value that
  every query takes as a parameter; a lookup that finds nothing stands for "nothing openable".
 */
module Readers {
  import opened Wrappers
  import opened NdArrays
  import opened Paths

  /** Failures a reader reports instead of returning an array or a shape. */
  datatype ReadError =
    | StoreUnavailable          // nothing openable of the expected kind at the location
    | DatasetNotFound           // the N5 root has no dataset under the requested key
    | ReaderClosed              // the TIFF handle was already released
    | SliceError(e: IndexError) // `array[:]` on an array that has no axis to slice

  /** What pims reports for an image sequence: its number of frames and the shape of one frame. */
  datatype FrameStack = FrameStack(frameCount: nat, frameShape: seq<nat>)

  /** The file system, as seen through each library the readers call. */
  datatype Store<T> = Store(
    arrays: map<Path, NdArray<T>>,                  // `zarr.open(path, "r")` with default addressing
    n5Roots: map<Path, map<string, NdArray<T>>>,    // `zarr.open(zarr.N5Store(path))`: datasets by key
    tiffFiles: map<Path, NdArray<T>>,               // `tifffile.TiffFile(path).asarray()`
    frameStacks: map<Path, FrameStack>)             // `pims.open(str(path))`
  {
    predicate Valid()
    {
      && (forall p :: p in arrays ==> arrays[p].Valid())
      && (forall p, k :: p in n5Roots && k in n5Roots[p] ==> n5Roots[p][k].Valid())
      && (forall p :: p in tiffFiles ==> tiffFiles[p].Valid())
    }
  }

  /** `zarr.open(path, "r")` as an array. */
  function OpenArray<T>(store: Store<T>, path: Path): Result<NdArray<T>, ReadError>
  {
    if path in store.arrays then Ok(store.arrays[path]) else Err(StoreUnavailable)
  }

  /** `.shape` of `zarr.open(path, "r")`: read from the store without selecting any element. */
  function ArrayShape<T>(store: Store<T>, path: Path): Result<seq<nat>, ReadError>
  {
    match OpenArray(store, path)
    case Ok(a) => Ok(a.shape)
    case Err(e) => Err(e)
  }

  /** `a[:]`: a full slice of the first axis, with numpy's failure on a 0-dimensional array. */
  function FullSlice<T>(a: NdArray<T>): Result<NdArray<T>, ReadError>
    requires a.Valid()
  {
    match Select(a, [Full])
    case Ok(v) => Ok(v)
    case Err(e) => Err(SliceError(e))
  }

  /** `a[:]` materialises the whole array, unchanged, whenever it has at least one axis. */
  lemma FullSliceIsWholeArray<T>(a: NdArray<T>)
    requires a.Valid()
    ensures |a.shape| > 0 ==> FullSlice(a) == Ok(a)
    ensures |a.shape| == 0 ==> FullSlice(a) == Err(SliceError(TooManyIndices))
  {
    if |a.shape| > 0 {
      assert Fulls(1) == [Full];
      SelectFullsIsIdentity(a.shape, a.data, 1);
    }
  }

  /** The state every reader shares: the location of its data, read and replaced as `data_path`. */
  class ImageReader {
    var dataPath: Path

    constructor (dataPath: Path)
      ensures this.dataPath == dataPath
    {
      this.dataPath := dataPath;
    }

    /** The `data_path` setter: replaces the location and opens nothing. */
    method SetDataPath(newDataPath: Path)
      modifies this
      ensures dataPath == newDataPath
    {
      dataPath := newDataPath;
    }
  }

  /** Location of a Zarr reader: the base location with the multiscale level as one more component. */
  function ZarrLocation(dataPath: Path, multiscale: Option<int>): Path
  {
    JoinPath(dataPath, OptionalIntToString(multiscale))
  }

  /**
    The Zarr location extends the base location by exactly one component, and that component
    reads back as the requested level; level 0, the default, gives the component "0".
   */
  lemma ZarrLocationNamesLevel(dataPath: Path, level: int)
    ensures |ZarrLocation(dataPath, Some(level))| == |dataPath| + 1
    ensures ZarrLocation(dataPath, Some(level))[..|dataPath|] == dataPath
    ensures ParseInt(ZarrLocation(dataPath, Some(level))[|dataPath|]) == Some(level)
    ensures ZarrLocation(dataPath, Some(0)) == dataPath + ["0"]
  {
    IntToStringRoundTrip(level);
  }

  /** Two readers on one base location but at different levels, or one at `None`, address different stores. */
  lemma ZarrLevelsAreDistinct(dataPath: Path, a: Option<int>, b: Option<int>)
    requires a != b
    ensures ZarrLocation(dataPath, a) != ZarrLocation(dataPath, b)
  {
    if ZarrLocation(dataPath, a) == ZarrLocation(dataPath, b) {
      assert ZarrLocation(dataPath, a)[|dataPath|] == OptionalIntToString(a);
      assert ZarrLocation(dataPath, b)[|dataPath|] == OptionalIntToString(b);
      if a.Some? && b.Some? {
        IntToStringInjective(a.value, b.value);
      }
    }
  }

  /** OME-Zarr reader: bound at construction to one multiscale level of a Zarr group. */
  class ZarrReader {
    const base: ImageReader

    constructor (dataPath: Path, multiscale: Option<int> := Some(0))
      ensures fresh(base)
      ensures base.dataPath == ZarrLocation(dataPath, multiscale)
    {
      base := new ImageReader(ZarrLocation(dataPath, multiscale));
    }

    /** `shape`: opens the current location read-only and reports the array's shape. */
    function Shape<T>(store: Store<T>): (r: Result<seq<nat>, ReadError>)
      reads base
      ensures r.Ok? <==> base.dataPath in store.arrays
      ensures r.Ok? ==> r.value == store.arrays[base.dataPath].shape
      ensures r.Err? ==> r.error == StoreUnavailable
    {
      ArrayShape(store, base.dataPath)
    }

    /**
      `as_numpy_array`: opens the current location read-only and takes `[:]`. Both queries address
      the same current location: the materialised array is exactly the stored one, so its shape
      is the reported shape; it fails only where `shape` fails or on a 0-dimensional array.
     */
    function AsArray<T>(store: Store<T>): (r: Result<NdArray<T>, ReadError>)
      requires store.Valid()
      reads base
      ensures r.Ok? <==> Shape(store).Ok? && |Shape(store).value| > 0
      ensures r.Ok? ==> r.value == store.arrays[base.dataPath] && Shape(store) == Ok(r.value.shape)
      ensures Shape(store).Err? ==> r == Err(StoreUnavailable)
    {
      match OpenArray(store, base.dataPath)
      case Ok(a) =>
        FullSliceIsWholeArray(a);
        FullSlice(a)
      case Err(e) => Err(e)
    }

    /** The inherited `data_path` setter: later queries address the new location. */
    method SetDataPath(newDataPath: Path)
      modifies base
      ensures base.dataPath == newDataPath
    {
      base.SetDataPath(newDataPath);
    }
  }

  /** N5 reader: keeps its location verbatim; the dataset is chosen per call. */
  class N5Reader {
    const base: ImageReader

    constructor (dataPath: Path)
      ensures fresh(base)
      ensures base.dataPath == dataPath
    {
      base := new ImageReader(dataPath);
    }

    /** `shape`: the shape of what opens at the location with default addressing; takes no dataset key. */
    function Shape<T>(store: Store<T>): (r: Result<seq<nat>, ReadError>)
      reads base
      ensures r.Ok? <==> base.dataPath in store.arrays
      ensures r.Ok? ==> r.value == store.arrays[base.dataPath].shape
      ensures r.Err? ==> r.error == StoreUnavailable
    {
      ArrayShape(store, base.dataPath)
    }

    /**
      `as_numpy_array(dataset)`: opens the location as an N5 root, looks up the dataset and takes
      `[:]`. It returns the full contents of the named dataset, and reports `DatasetNotFound`
      exactly when the root opens but holds no such key.
     */
    function AsArray<T>(store: Store<T>, dataset: string): (r: Result<NdArray<T>, ReadError>)
      requires store.Valid()
      reads base
      ensures r == Err(DatasetNotFound) <==>
        base.dataPath in store.n5Roots && dataset !in store.n5Roots[base.dataPath]
      ensures r.Ok? ==>
        && base.dataPath in store.n5Roots && dataset in store.n5Roots[base.dataPath]
        && r.value == store.n5Roots[base.dataPath][dataset]
      ensures (&& base.dataPath in store.n5Roots && dataset in store.n5Roots[base.dataPath]
               && |store.n5Roots[base.dataPath][dataset].shape| > 0) ==> r.Ok?
      ensures base.dataPath !in store.n5Roots ==> r == Err(StoreUnavailable)
    {
      if base.dataPath !in store.n5Roots then Err(StoreUnavailable)
      else if dataset !in store.n5Roots[base.dataPath] then Err(DatasetNotFound)
      else
        FullSliceIsWholeArray(store.n5Roots[base.dataPath][dataset]);
        FullSlice(store.n5Roots[base.dataPath][dataset])
    }

    /** The inherited `data_path` setter. */
    method SetDataPath(newDataPath: Path)
      modifies base
      ensures base.dataPath == newDataPath
    {
      base.SetDataPath(newDataPath);
    }
  }

  /**
    `shape` ignores the dataset that `as_numpy_array` reads: a store whose root array has shape
    (1,) and whose dataset has shape (2,) makes the two disagree.
   */
  lemma N5ShapeCanDifferFromDataset<T>(r: N5Reader, dataset: string, x: T)
    ensures
      var store := Store(
        map[r.base.dataPath := NdArray([1], [x])],
        map[r.base.dataPath := map[dataset := NdArray([2], [x, x])]],
        map[], map[]);
      && store.Valid()
      && r.Shape(store) == Ok([1])
      && r.AsArray(store, dataset) == Ok(NdArray([2], [x, x]))
  {
    FullSliceIsWholeArray(NdArray([2], [x, x]));
  }

  /** An open `tifffile.TiffFile`: the file it was opened on and the pages it decodes to. */
  datatype TiffHandle<T> = TiffHandle(path: Path, pages: NdArray<T>)

  /** TIFF reader: opens its file at construction and holds the handle until `close_handler`. */
  class TiffReader<T> {
    const base: ImageReader
    var tiff: Option<TiffHandle<T>>
    /** How many times the file handle has been closed. */
    ghost var releases: nat

    /** Open with the handle never released, or closed with the handle released exactly once. */
    ghost predicate Valid()
      reads this
    {
      if tiff.Some? then releases == 0 else releases == 1
    }

    /** The initialiser behind `NewTiffReader`: the handle is one opened on the reader's own location. */
    constructor (dataPath: Path, handle: TiffHandle<T>)
      requires handle.path == dataPath
      ensures fresh(base)
      ensures base.dataPath == dataPath
      ensures tiff == Some(handle) && releases == 0 && Valid()
    {
      base := new ImageReader(dataPath);
      tiff := Some(handle);
      releases := 0;
    }

    /** `as_numpy_array`: decodes through the handle, so it needs the handle still open. */
    function AsArray(): (r: Result<NdArray<T>, ReadError>)
      reads this
      ensures r.Ok? <==> tiff.Some?
      ensures r.Ok? ==> r.value == tiff.value.pages
    {
      if tiff.None? then Err(ReaderClosed) else Ok(tiff.value.pages)
    }

    /**
      `shape`: reopens the current location with pims, independently of the handle, and reports
      the frame count followed by the frame shape.
     */
    function Shape(store: Store<T>): (r: Result<seq<nat>, ReadError>)
      reads base
      ensures r.Ok? <==> base.dataPath in store.frameStacks
      ensures r.Ok? ==>
        var frames := store.frameStacks[base.dataPath];
        && |r.value| == |frames.frameShape| + 1
        && r.value[0] == frames.frameCount
        && r.value[1..] == frames.frameShape
    {
      if base.dataPath in store.frameStacks then
        var frames := store.frameStacks[base.dataPath];
        Ok([frames.frameCount] + frames.frameShape)
      else
        Err(StoreUnavailable)
    }

    /** `close_handler`: closes and drops an open handle; on a closed reader it does nothing. */
    method CloseHandler()
      requires Valid()
      modifies this
      ensures Valid() && tiff == None
      ensures releases == old(releases) + (if old(tiff).Some? then 1 else 0)
      ensures old(tiff) == None ==> unchanged(this)
      ensures AsArray() == Err(ReaderClosed)
      ensures unchanged(base)
    {
      if tiff.Some? {
        releases := releases + 1;
        tiff := None;
      }
    }

    /** `__del__`: the destructor closes the handle through `close_handler`. */
    method Finalize()
      requires Valid()
      modifies this
      ensures Valid() && tiff == None
      ensures releases == old(releases) + (if old(tiff).Some? then 1 else 0)
      ensures old(tiff) == None ==> unchanged(this)
    {
      CloseHandler();
    }

    /** The inherited `data_path` setter: the handle already open stays on the file it was opened on. */
    method SetDataPath(newDataPath: Path)
      modifies base
      ensures base.dataPath == newDataPath
      ensures tiff == old(tiff) && AsArray() == old(AsArray())
    {
      base.SetDataPath(newDataPath);
    }
  }

  /** `TiffReader(data_path)`: fails when tifffile cannot open the file, else holds it open. */
  method NewTiffReader<T>(store: Store<T>, dataPath: Path) returns (r: Result<TiffReader<T>, ReadError>)
    ensures r.Ok? <==> dataPath in store.tiffFiles
    ensures r.Err? ==> r.error == StoreUnavailable
    ensures r.Ok? ==>
      && fresh(r.value) && fresh(r.value.base) && r.value.Valid()
      && r.value.base.dataPath == dataPath
      && r.value.tiff == Some(TiffHandle(dataPath, store.tiffFiles[dataPath]))
  {
    if dataPath in store.tiffFiles {
      var reader := new TiffReader(dataPath, TiffHandle(dataPath, store.tiffFiles[dataPath]));
      r := Ok(reader);
    } else {
      r := Err(StoreUnavailable);
    }
  }

  /**
    A caller's view of the TIFF lifecycle: closing twice is harmless, reading after close reports
    `ReaderClosed`, and the shape is still answered from the location.
   */
  method CloseTwiceThenQuery<T>(store: Store<T>, dataPath: Path)
    requires dataPath in store.tiffFiles && dataPath in store.frameStacks
  {
    var created := NewTiffReader(store, dataPath);
    var reader := created.value;
    assert reader.AsArray() == Ok(store.tiffFiles[dataPath]);
    var before := reader.Shape(store);
    reader.CloseHandler();
    reader.CloseHandler();
    reader.Finalize();
    assert reader.releases == 1;
    assert reader.AsArray() == Err(ReaderClosed);
    assert reader.Shape(store) == before && before.Ok?;
  }

  /** A TIFF of 5 frames of 512 by 512 pixels has shape (5, 512, 512). */
  lemma TiffShapeOfFiveFrames<T>(r: TiffReader<T>, store: Store<T>)
    requires store.frameStacks == map[r.base.dataPath := FrameStack(5, [512, 512])]
    ensures r.Shape(store) == Ok([5, 512, 512])
  {
    assert [5] + [512, 512] == [5, 512, 512];
  }
}
