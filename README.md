# Lightsheet image readers and `extract_data`, modelled in Dafny

This project models the read-only access layer of the lightsheet masked-autoencoder repository
(`code/aind_lightsheet_mae`) and proves properties of the model.

- **Readers** (`io/_io.py`, file `readers.dfy`). `ImageReader` owns the location of an image
  (`data_path`, a getter and a setter that opens nothing). `ZarrReader` folds the multiscale level
  into the location as one more path component. `N5Reader` keeps the location verbatim and takes
  the dataset key per call. `TiffReader` opens its file at construction and holds the handle
  until `close_handler` (or the destructor) closes it. What the zarr, N5Store, tifffile and pims
  libraries would find on disk is a `Store` value with four separate lookups, passed to every
  query, so shape and materialisation are functions of the reader's state and the store.
  Python inheritance becomes composition: each concrete reader holds its `ImageReader` as
  `base`, and the inherited setter is delegated. The `data_path` getter is the public field
  `base.dataPath`. Zarr and N5 queries and TIFF `shape` read only `base`, so after a set they
  address the new location. TIFF materialisation reads only the handle, which stays on the file
  it was opened on. An open TIFF handle is that file together with the pages it decodes to. The ghost counter `releases`
  records how many times the handle has been closed.
- **`extract_data`** (`dataset/utils.py`, file `dataset_utils.dfy`).
  An array is a shape with its elements in row-major order (`ndarrays.dfy`), and numpy's basic
  indexing by non-negative integer positions and full slices is modelled, including its
  `IndexError`s.
  `ExtractData` computes the number `k` of trailing dimensions (given, or `ndim - shape.count(1)`),
  builds the index list in a loop (`DynamicIndices`) and indexes with it. It is proved equal to
  `Extract`, an independent definition: the first `Product(shape[ndim - k..])` elements, with
  the trailing shape.
- **Paths** (`paths.dfy`): a location is a sequence of components. Python's `str` of the level
  is defined digit by digit, with a parser proved to invert it.

The source's exceptions are `Err` values of a `Result`. Two of them are left implicit in the
source: a negative `last_dimensions` passes the `ValueError` check and then makes the loop
assign past the end of the index list, and a dropped leading axis of size 0 makes numpy reject
position 0. The model returns `IndicesOverrun` and `Indexing(PositionOutOfBounds)` for these.
Reading a closed TIFF reader dereferences `None` in the source (an `AttributeError`); the model
returns `ReaderClosed` instead of crashing.

## Model

| member | source | states |
|---|---|---|
| `Readers.ImageReader.constructor` | code/aind_lightsheet_mae/io/_io.py:22-34 | the reader's location is the path it was given |
| `Readers.ImageReader.SetDataPath` | code/aind_lightsheet_mae/io/_io.py:75-86 | the setter replaces the location and changes nothing else |
| `Readers.ZarrLocationNamesLevel` | code/aind_lightsheet_mae/io/_io.py:94-110 | the Zarr location is the base path plus exactly one component, which reads back as the level; the default level 0 gives the component "0" |
| `Readers.ZarrLevelsAreDistinct` | code/aind_lightsheet_mae/io/_io.py:94-110 | different levels (or `None`) on one base path give different locations, so a reader is bound to one level |
| `Readers.ZarrReader.constructor` | code/aind_lightsheet_mae/io/_io.py:94-110 | the stored location is `data_path / str(multiscale)`, with `multiscale` defaulting to 0 |
| `Readers.ZarrReader.SetDataPath` | code/aind_lightsheet_mae/io/_io.py:75-86 | the inherited setter replaces the location, on which `shape` and `as_numpy_array` then operate |
| `Readers.ZarrReader.Shape` | code/aind_lightsheet_mae/io/_io.py:112-123 | `shape` reports the shape of the array stored at the current location, and `StoreUnavailable` when nothing opens there |
| `Readers.ZarrReader.AsArray` | code/aind_lightsheet_mae/io/_io.py:125-135 | `as_numpy_array` returns exactly the stored array at the current location, whose shape is what `shape` reports; it fails where `shape` fails, and on a 0-dimensional array |
| `Readers.FullSliceIsWholeArray` | code/aind_lightsheet_mae/io/_io.py:135 | `a[:]` is the whole array when it has an axis, and an `IndexError` when it has none |
| `Readers.N5Reader.constructor` | code/aind_lightsheet_mae/io/_io.py:143-153 | the stored location is the given path unchanged |
| `Readers.N5Reader.SetDataPath` | code/aind_lightsheet_mae/io/_io.py:75-86 | the inherited setter replaces the location |
| `Readers.N5Reader.Shape` | code/aind_lightsheet_mae/io/_io.py:155-166 | `shape` reports the shape of what opens at the location with default addressing, and `StoreUnavailable` when nothing opens there |
| `Readers.N5Reader.AsArray` | code/aind_lightsheet_mae/io/_io.py:168-190 | the N5 read returns the full contents of the named dataset; it fails with `DatasetNotFound` exactly when the root opens but lacks the key, and with `StoreUnavailable` when the root does not open |
| `Readers.N5ShapeCanDifferFromDataset` | code/aind_lightsheet_mae/io/_io.py:155-190 | `shape` takes no dataset key and can disagree with the shape of the dataset that `as_numpy_array` returns |
| `Readers.TiffReader.constructor` | code/aind_lightsheet_mae/io/_io.py:198-209 | the location is the given path and the reader starts open on a handle for that same path, never released |
| `Readers.NewTiffReader` | code/aind_lightsheet_mae/io/_io.py:198-209 | construction fails when the file cannot be opened, and otherwise holds a handle on that file with the location unchanged |
| `Readers.TiffReader.AsArray` | code/aind_lightsheet_mae/io/_io.py:211-221 | materialising succeeds exactly while the handle is open and returns the pages of the opened file |
| `Readers.TiffReader.Shape` | code/aind_lightsheet_mae/io/_io.py:223-237 | the shape is the frame count followed by the frame shape, one longer than the frame rank, read from the location and not from the handle |
| `Readers.TiffShapeOfFiveFrames` | code/aind_lightsheet_mae/io/_io.py:234-237 | five frames of 512 by 512 give the shape (5, 512, 512) |
| `Readers.TiffReader.CloseHandler` | code/aind_lightsheet_mae/io/_io.py:239-245 | the first call releases the handle once and sets it to `None`; a later call changes nothing; afterwards materialising reports `ReaderClosed` and the location is untouched |
| `Readers.TiffReader.Finalize` | code/aind_lightsheet_mae/io/_io.py:247-249 | the destructor has the effect of `close_handler`, so it is harmless after an explicit close |
| `Readers.TiffReader.SetDataPath` | code/aind_lightsheet_mae/io/_io.py:75-86 | the inherited setter replaces the location but leaves the open handle, and hence what materialising returns, as it was |
| `Readers.CloseTwiceThenQuery` | code/aind_lightsheet_mae/io/_io.py:239-249 | a caller can close twice and run the destructor with one release in all, gets `ReaderClosed` when reading afterwards, and still gets the same shape |
| `Paths.IntToStringRoundTrip` | code/aind_lightsheet_mae/io/_io.py:110 | `str` of the level reads back as the level |
| `Paths.IntToStringInjective` | code/aind_lightsheet_mae/io/_io.py:110 | distinct levels print differently |
| `Paths.NoneIsNotAnIntString` | code/aind_lightsheet_mae/io/_io.py:95-110 | `multiscale=None` gives the component "None", which no integer level gives |
| `Paths.JoinPath` | code/aind_lightsheet_mae/io/_io.py:110 | `joinpath` with a plain name keeps the base path and adds that name as one last component |
| `Paths.IntToString` | code/aind_lightsheet_mae/io/_io.py:110 | `str` of an integer is non-empty, starts with `-` exactly for a negative one, is otherwise decimal digits, and holds no separator |
| `Paths.OptionalIntToString` | code/aind_lightsheet_mae/io/_io.py:95-110 | `str` of an `Optional[int]` is a single path component, and is "None" exactly for `None` |
| `NdArrays.Select` | code/aind_lightsheet_mae/dataset/utils.py:79 | numpy indexing succeeds exactly when the tuple is no longer than the rank and each integer lies within its axis; too many entries is `TooManyIndices`; the result is a well-formed array |
| `NdArrays.SelectFullsIsIdentity` | code/aind_lightsheet_mae/dataset/utils.py:74 | indexing with full slices only returns the array unchanged |
| `NdArrays.SelectLeadingZeros` | code/aind_lightsheet_mae/dataset/utils.py:74-79 | position 0 on the `d` leading axes and full slices on the rest give the trailing shape and the first `Product(shape[d..])` elements |
| `NdArrays.OffsetOfLeadingZeros` | code/aind_lightsheet_mae/dataset/utils.py:76-79 | the element at `(0, ..., 0) ++ j` lies where `j` lies in the trailing shape |
| `NdArrays.Offset` | code/aind_lightsheet_mae/dataset/utils.py:79 | the row-major position of an in-bounds multi-index lies inside the array |
| `DatasetUtils.CountOnes` | code/aind_lightsheet_mae/dataset/utils.py:72 | `shape.count(1)` is the multiplicity of 1 in the shape, at most the rank |
| `DatasetUtils.DefaultLastDimensions` | code/aind_lightsheet_mae/dataset/utils.py:71-72 | the default count is the rank minus the number of unit axes, never more than the rank |
| `DatasetUtils.EffectiveLastDimensions` | code/aind_lightsheet_mae/dataset/utils.py:65-72 | a given `last_dimensions` is used as it is; without one the count is the rank minus the number of unit axes, between 0 and the rank |
| `DatasetUtils.DynamicIndices` | code/aind_lightsheet_mae/dataset/utils.py:74-77 | the index list has one entry per axis: 0 on the first `ndim - k` axes and a full slice on the rest; a negative `k` makes the loop fail instead |
| `DatasetUtils.ExtractData` | code/aind_lightsheet_mae/dataset/utils.py:29-79 | the procedure returns exactly `Extract`; a count above the rank is the `ValueError`; a result has the last `k` axes of the input |
| `DatasetUtils.Extract` | code/aind_lightsheet_mae/dataset/utils.py:64-79 | the reference result is a well-formed array |
| `DatasetUtils.ExtractIsSelection` | code/aind_lightsheet_mae/dataset/utils.py:74-79 | the reference definition agrees with numpy indexing by the index tuple, failures included |
| `DatasetUtils.ExtractElements` | code/aind_lightsheet_mae/dataset/utils.py:76-79 | each result element at `j` is the input element at `(0, ..., 0) ++ j` |
| `DatasetUtils.ExtractAllDimensionsIsIdentity` | code/aind_lightsheet_mae/dataset/utils.py:65-79 | keeping all `ndim` dimensions returns the input unchanged |
| `DatasetUtils.DefaultNeverRejectsCount` | code/aind_lightsheet_mae/dataset/utils.py:65-72 | with the default count neither the `ValueError` nor the list overrun can occur; it succeeds exactly when the dropped leading axes are non-empty |
| `DatasetUtils.DefaultSqueezesLeadingUnitAxes` | code/aind_lightsheet_mae/dataset/utils.py:71-79 | when all unit axes lead, the default drops exactly them and keeps every element |
| `DatasetUtils.DefaultDropsThreeUnitAxes` | code/aind_lightsheet_mae/dataset/utils.py:35 | (1, 1, 1, 1600, 2000) gives (1600, 2000) |
| `DatasetUtils.DefaultDropsOneUnitAxis` | code/aind_lightsheet_mae/dataset/utils.py:36 | (1, 1600, 2000) gives (1600, 2000) |
| `DatasetUtils.DefaultKeepsNonUnitAxis` | code/aind_lightsheet_mae/dataset/utils.py:37 | (1, 1, 2, 1600, 2000) gives (2, 1600, 2000) |
| `DatasetUtils.GivenThreeDimensions` | code/aind_lightsheet_mae/dataset/utils.py:50 | (1, 1, 1600, 2000) with `last_dimensions=3` gives (1, 1600, 2000) |
| `DatasetUtils.GivenOneDimension` | code/aind_lightsheet_mae/dataset/utils.py:51 | (1, 1, 1600, 2000) with `last_dimensions=1` gives (2000), the first row |
| `DatasetUtils.DefaultDropsLeadingAxisNotUnitAxis` | code/aind_lightsheet_mae/dataset/utils.py:72-77 | (1600, 1, 2000) gives (1, 2000): the default drops leading axes by count, so a later unit axis survives |

## Left out

- Decoding by zarr, N5Store, tifffile and pims: each is a lookup in the `Store`, and a missing entry is `StoreUnavailable`. The four lookups are independent, and the model does not claim that they agree (for one, that tifffile and pims report the same shape for a file).
- `zarr.open` on an N5 store uses the default mode, which could create an empty group where none exists. The model treats a missing root as `StoreUnavailable`.
- An open TIFF handle decodes the file as it was when opened. Changes to the file while the handle is open are not modelled.
- pathlib parsing and normalisation (`Path(str)`, `.`, `..`, absolute paths): a location is already a list of components, and `Path(p)` is `p`.
- `multiscale` values other than an integer or `None` (`str` of an arbitrary object) are not modelled.
- numpy indexing forms that the core never builds: negative integer positions, partial slices, steps, ellipsis and new axes. torch tensors index the same way for the tuples built here.
- The destructor on a failed construction: when tifffile cannot open the file, Python still runs `__del__` on the half-built object, whose `close_handler` fails on the missing `tiff` attribute and prints an ignored-exception warning. `NewTiffReader` returns `StoreUnavailable` and no object, and that warning is not modelled.
- When the destructor runs: garbage-collection timing is not modellable, so `Finalize` models only that it calls `close_handler`.
- `validate_input_path` (`dataset/utils.py`): a filesystem existence check, which is I/O.
- `_shared/types.py`: type aliases with no behaviour. Elements have an abstract type `T`.
- Out-of-memory failures, element values and dtypes, and concurrency between readers.
