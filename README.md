# intake-hypothetic HypotheticSource, modelled in Dafny

This is a model of the intake driver `HypotheticSource` (`intake_hypothetic/hypothetic.py`), with proofs of its properties. The driver builds a "hypotheticube", a lazy aggregate over many single-file cubes on S3, in five steps:

- It computes a window of forecast reference times, walking back from the latest model run before now (`generate_frts`).
- It stores that window in the metadata mapping and expands the mapping into a table. The table has one row per combination of the list-valued fields, and each row gets a `uri` from a pluggable key generator (`generate_metadata`).
- It scans the table for the first object that exists and loads it as the template cube (`find_template_cube`).
- It drops the `uri` column and every constant column to get the replacement coordinates (`extract_unique_metadata`).
- It hands these to the aggregate builder. The dataset and its schema are cached until `close`, and partitions are read by tuple index (`read_partition`).

Modules, one per concern:

| file | module | what it holds |
|---|---|---|
| `common.dfy` | `Common` | `Option`, `Result`, `Outcome`, one `Error` constructor per place the source raises |
| `reference_times.dfy` | `ReferenceTimes` | `generate_frts`: times are integer seconds and the clock is a parameter |
| `decimal.dfy` | `Decimal` | `str()` of an integer and its inverse |
| `metadata_space.dfy` | `MetadataSpace` | the ordered metadata mapping, `itertools.product`, and the table of `generate_metadata` |
| `template_discovery.dfy` | `TemplateDiscovery` | splitting an `s3://` path, and the first-match scan as a function |
| `coordinate_reduction.dfy` | `CoordinateReduction` | `DataFrame.drop`, `nunique`, `extract_unique_metadata` |
| `partition_index.dfy` | `PartitionIndex` | `read_partition` as written, and as evidently intended |
| `hypothetic_source.dfy` | `HypotheticSourceModel` | the `HypotheticSource` class: its fields and the methods that update them |

The pure parts (the window, the table, the scan's result, the reduction, the partition read) are functions with lemmas. The parts of the source that change state are methods of the class `HypotheticSource`:
- `generate_metadata` mutates `self.metadata`.
- The `for` loop of `find_template_cube` is a `while` loop whose result is proved equal to the scan function.
- The `_open_dataset` / `_get_schema` / `close` cache works on the fields `metadata`, `metadataDf`, `templateCubePath`, `ds` and `schema`.

Abstract parameters stand in for the clock, the S3 fetch and `iris.load_cube`, the key generator, `strftime` and `iris_hypothetic.load_hypotheticube`.

Points where the source behaves differently from what its names suggest:

- **`model_start_time` is a number of hours.** The code adds it to hours at line 117. It is not an offset in seconds.
- **Three list-valued fields raise `ValueError`.** The code unpacks every product tuple as `(fp, frt)` at line 140. A declaration `{level: [10, 20], forecast_period: [0, 6]}`, once the window is added, has three list-valued fields. It therefore raises `ValueError` rather than one row per combination (`MetadataSpace.ThreeListFieldsExample`). With two list-valued fields, the first is labelled `forecast_period` and the second `forecast_reference_time` by position, whatever their names.
- **Only a missing key is skipped.** `find_template_cube` skips only `NoSuchKey` (lines 157-158). Any other fetch or parse failure propagates and ends the scan.
- **Only integers get special rendering.** `int` values (`numpy.int64` in the frame) are rendered by `str(int(v))`. Everything else uses `str(v)`, floats included.
- **Times are local, not UTC.** They come from `datetime.now()` and are formatted with a literal `Z`.

## Model

| member | source | states |
|---|---|---|
| ReferenceTimes.TruncDiv | intake_hypothetic/hypothetic.py:114 | `int(a / b)` truncates toward zero. It equals floor division for non-negative operands and is never positive when the signs differ. |
| ReferenceTimes.Truncate | intake_hypothetic/hypothetic.py:123 | `int(x)` of a float truncates toward zero. It is within one of `x`, on the side of zero. |
| ReferenceTimes.RunHours | intake_hypothetic/hypothetic.py:114-117 | One entry per `i` in `range(runs_per_day)` (none when that is negative), the i-th being `model_start_time + interval*i/3600` |
| ReferenceTimes.Eligible | intake_hypothetic/hypothetic.py:120 | Holds exactly the run hours not after the current hour |
| ReferenceTimes.Max | intake_hypothetic/hypothetic.py:120 | `max()` of a non-empty list is one of its elements and no element exceeds it |
| ReferenceTimes.AnchorIsLatestRun | intake_hypothetic/hypothetic.py:114-123 | The anchor hour is `int()` of a run hour not after the current hour and not below any other such run hour. It lies in 0..now.hour. |
| ReferenceTimes.AnchorHour | intake_hypothetic/hypothetic.py:114-123 | `int(last_run_hour)`. It raises for a zero interval, for no run hour yet, and for an hour outside 0..23. Its contract is stated by `AnchorIsLatestRun` and `FrtsNoRunYet`. |
| ReferenceTimes.Window | intake_hypothetic/hypothetic.py:126 | The walk back from the anchor, which `WindowAt` and `WindowSteps` describe |
| ReferenceTimes.GenerateFrts | intake_hypothetic/hypothetic.py:107-128 | `generate_frts` before formatting: the anchor's window of `int(retention/interval)` times. `FrtsWindow`, `FrtsOffsets`, `FrtsAnchor` and `FrtsNoRunYet` state its contract. |
| ReferenceTimes.FrtsAnchor | intake_hypothetic/hypothetic.py:114-126 | The first time yielded is the current day at that whole anchor hour (minutes and seconds zero) |
| ReferenceTimes.FrtsNoRunYet | intake_hypothetic/hypothetic.py:120 | `max()` of the empty list raises exactly when every run hour is after the current hour |
| ReferenceTimes.FrtsWindow | intake_hypothetic/hypothetic.py:126 | The window has `int(retention/interval)` times (none when that is negative) and the interval is positive. Consecutive times differ by exactly `interval`, and the times strictly decrease (newest first). |
| ReferenceTimes.FrtsOffsets | intake_hypothetic/hypothetic.py:126 | The i-th time is the anchor minus `i*interval` seconds |
| ReferenceTimes.WindowAt | intake_hypothetic/hypothetic.py:126 | Walking back `count` steps gives `count` times, the i-th being `start - i*interval` |
| ReferenceTimes.WindowSteps | intake_hypothetic/hypothetic.py:126 | With a positive interval, the walk starts at the anchor, never passes it, and steps down by exactly `interval` each time |
| ReferenceTimes.RetainedCount | intake_hypothetic/hypothetic.py:126 | The number of runs of `range(0, int(retention/interval))` is `retention / interval` for non-negative retention and 0 otherwise |
| ReferenceTimes.SixHourlyExample | intake_hypothetic/hypothetic.py:107-128 | Runs every six hours from midnight with six hours of retention give exactly one time: the latest of 00, 06, 12, 18 not after the current hour |
| Decimal.Natural | intake_hypothetic/hypothetic.py:142 | `str()` of a non-negative integer: non-empty decimal digits, no leading zero unless the value is 0 |
| Decimal.Show | intake_hypothetic/hypothetic.py:142 | Python's canonical `str(n)`: a `-` exactly for negatives, then non-empty digits with no leading zero (the only text starting with `0` is `"0"`). `ShowRoundTrip` ties it to `Parse`. |
| Decimal.NaturalRoundTrip | intake_hypothetic/hypothetic.py:142 | Reading the digits of a natural back gives the natural |
| Decimal.ShowRoundTrip | intake_hypothetic/hypothetic.py:142 | `int(str(n)) == n` for every integer, negatives included |
| Decimal.ShowInjective | intake_hypothetic/hypothetic.py:142 | Distinct integers render as distinct texts, so the key generator can tell them apart |
| MetadataSpace.Str | intake_hypothetic/hypothetic.py:142 | An integer value's text is its canonical `str(int(v))`, which parses back to that integer |
| MetadataSpace.Lookup | intake_hypothetic/hypothetic.py:135 | `md.get(key)` is present exactly when the key is among the mapping's keys, and the pair is in the mapping |
| MetadataSpace.Assign | intake_hypothetic/hypothetic.py:135 | `md[key] = f` keeps the key order when the key exists and appends the key otherwise. The result is again a mapping without repeated keys. |
| MetadataSpace.AssignLookup | intake_hypothetic/hypothetic.py:135 | After the assignment the key reads as `f` and every other key reads as before |
| MetadataSpace.AssignTwice | intake_hypothetic/hypothetic.py:135 | Assigning a fresh window over a stale one gives the same mapping as assigning it once |
| MetadataSpace.AssignAppends | intake_hypothetic/hypothetic.py:135 | A key not yet present is appended as the last pair |
| MetadataSpace.ScalarKeys | intake_hypothetic/hypothetic.py:138 | The scalar field names, exactly those with a non-list value, without repeats |
| MetadataSpace.Scalars | intake_hypothetic/hypothetic.py:138 | The dict comprehension of non-list fields maps each key to its value, and holds no other key |
| MetadataSpace.Product | intake_hypothetic/hypothetic.py:140 | `itertools.product(*iter_metadata)`, described by `ProductShape`, `ProductDistinct` and `ProductOfTwoAt` |
| MetadataSpace.ProductShape | intake_hypothetic/hypothetic.py:140 | `itertools.product` has one tuple per combination (the product of the lengths), and its tuples are exactly those picking one value from each list in order |
| MetadataSpace.ProductDistinct | intake_hypothetic/hypothetic.py:140 | When no list repeats a value, no combination appears twice |
| MetadataSpace.ProductOfTwoAt | intake_hypothetic/hypothetic.py:140 | Product order for two lists: the i-th of the first with the j-th of the second sits at `i*len(second) + j` |
| MetadataSpace.BuildTable | intake_hypothetic/hypothetic.py:137-142 | Lines 137-142 on the updated mapping, described by `TableErrors`, `TableWellFormed`, `TableRows` and `TableUris` |
| MetadataSpace.TableErrors | intake_hypothetic/hypothetic.py:140 | Unpacking as `(fp, frt)` raises `ValueError` exactly when the product is non-empty and there are not two list-valued fields |
| MetadataSpace.ColumnsShape | intake_hypothetic/hypothetic.py:140-142 | The frame's columns are distinct: `forecast_period`, `forecast_reference_time`, the scalar fields, and `uri` |
| MetadataSpace.TableWellFormed | intake_hypothetic/hypothetic.py:140-142 | A built table has distinct columns including `uri`, and every row holds exactly those columns |
| MetadataSpace.TableRowAt | intake_hypothetic/hypothetic.py:140-142 | The step `TableRows` and `TableUris` use: row k of a built table is the k-th product tuple, which picks one value per list, made into a row |
| MetadataSpace.TableRows | intake_hypothetic/hypothetic.py:137-140 | With two list-valued fields there is one row per combination in product order. The tuple is labelled by position, and every scalar is carried unchanged. |
| MetadataSpace.TableUris | intake_hypothetic/hypothetic.py:142 | Each row's uri is the key generator applied to the rest of the row, stringified |
| MetadataSpace.Stringified | intake_hypothetic/hypothetic.py:142 | The stringified copy has exactly the row's keys, and each value is that value's text (`str(int(v))` for integers) |
| MetadataSpace.ThreeListFieldsExample | intake_hypothetic/hypothetic.py:135-140 | `{level: [10, 20], forecast_period: [0, 6]}` plus a non-empty window raises the unpacking `ValueError` with arity 3 |
| TemplateDiscovery.IndexOf | intake_hypothetic/hypothetic.py:152 | The position of the first `/`, or the length when there is none |
| TemplateDiscovery.SplitS3 | intake_hypothetic/hypothetic.py:150-152 | The assertion fails unless the path starts with `s3://`, and the split fails without a `/` after it. Otherwise the bucket (no `/`) and the key rejoin to the path. |
| TemplateDiscovery.SplitS3RoundTrip | intake_hypothetic/hypothetic.py:151-152 | Splitting `s3://bucket/key` gives back the bucket and the key whenever the bucket has no `/` |
| TemplateDiscovery.Attempt | intake_hypothetic/hypothetic.py:147-158 | One pass of the loop body on a row: a missing or non-text uri, a failed split or a failed load aborts the scan, `NoSuchKey` skips the row, and a loaded cube is a hit |
| TemplateDiscovery.Search | intake_hypothetic/hypothetic.py:146-161 | The whole scan, described by `SearchDecidedByFirst` and `SearchIgnoresLaterRows` |
| TemplateDiscovery.FirstDecisive | intake_hypothetic/hypothetic.py:146-158 | The first row whose attempt does not hit `NoSuchKey`: every row before it is skipped |
| TemplateDiscovery.SearchDecidedByFirst | intake_hypothetic/hypothetic.py:146-161 | The scan returns the first non-missing row's path and cube, or the error it raised. It raises "Failed to find template cube" only when every row is missing. |
| TemplateDiscovery.SearchIgnoresLaterRows | intake_hypothetic/hypothetic.py:146-160 | Rows after the deciding one do not affect the result |
| TemplateDiscovery.ScanStopsAt | intake_hypothetic/hypothetic.py:146-161 | A loop that stops at row i, after skipping all rows before it, returns what the scan returns |
| CoordinateReduction.FirstMissing | intake_hypothetic/hypothetic.py:165 | `drop` fails exactly when some name to drop is not a column, and it reports such a name |
| CoordinateReduction.DropColumns | intake_hypothetic/hypothetic.py:165 | `drop(drop, axis=1)`: `KeyError` for a name that is not a column, otherwise the other columns in order (see `ExtractUniqueSpec`) |
| CoordinateReduction.Project | intake_hypothetic/hypothetic.py:165 | The projected frame has the given columns and the same number of rows |
| CoordinateReduction.ProjectWellFormed | intake_hypothetic/hypothetic.py:165-168 | Projecting onto distinct existing columns keeps the frame well formed and every kept value unchanged |
| CoordinateReduction.Column | intake_hypothetic/hypothetic.py:48 | `metadata_df.uri` is the column's value in each row, in row order |
| CoordinateReduction.NUnique | intake_hypothetic/hypothetic.py:166 | `Series.nunique`: the number of distinct values in the column, which `NUniqueIsOne` relates to a constant column |
| CoordinateReduction.ExtractUnique | intake_hypothetic/hypothetic.py:163-168 | `extract_unique_metadata`, whose contract is `ExtractUniqueSpec` |
| CoordinateReduction.NUniqueIsOne | intake_hypothetic/hypothetic.py:166-167 | `nunique == 1` exactly when the frame has rows and they all agree on the column |
| CoordinateReduction.ExtractUniqueSpec | intake_hypothetic/hypothetic.py:163-168 | Raises `KeyError` exactly when a dropped name is not a column. Otherwise it keeps exactly the columns neither dropped nor constant over a non-empty frame, in the original order, with every row and value unchanged. |
| CoordinateReduction.ExtractUniqueSucceeds | intake_hypothetic/hypothetic.py:49 | Dropping only existing columns (`uri` after `generate_metadata`) never raises |
| PartitionIndex.AsTuple | intake_hypothetic/hypothetic.py:82-86 | A non-sequence index raises `TypeError`, and a list is converted to the equal tuple |
| PartitionIndex.ReadPartitionAsWritten | intake_hypothetic/hypothetic.py:76-95 | `read_partition` as written, with the `NameError` at line 87 (see `AsWrittenNeverReads`) |
| PartitionIndex.Materialize | intake_hypothetic/hypothetic.py:92-95 | An in-memory array is returned whole, and a deferred array is computed at exactly the index |
| PartitionIndex.ReadPartition | intake_hypothetic/hypothetic.py:76-95 | `read_partition` with `CubeList` bound, whose contract is `ReadPartitionSpec` |
| PartitionIndex.AsWrittenNeverReads | intake_hypothetic/hypothetic.py:82-95 | As written, every call raises: `TypeError` for a non-sequence, `NameError` for every tuple or list |
| PartitionIndex.PyItem | intake_hypothetic/hypothetic.py:88 | Python indexing: in range for `-len <= k < len`, and a negative k counts from the end |
| PartitionIndex.ReadPartitionSpec | intake_hypothetic/hypothetic.py:82-95 | A non-sequence is rejected and a list reads as the equal tuple. For a list of aggregates, the first component picks the aggregate (out of range raises) and the rest indexes inside it. A deferred array is computed at exactly that index. |
| PartitionIndex.ThreeAggregatesExample | intake_hypothetic/hypothetic.py:76-95 | On three aggregates, `(1, 0, 0)` selects aggregate 1 at `(0, 0)`. The code as written raises `NameError` instead. |
| HypotheticSourceModel.WindowField | intake_hypothetic/hypothetic.py:135 | `list(generate_frts(...))` is a list field whose i-th value is the i-th time of the window, formatted, newest first |
| HypotheticSourceModel.HypotheticSource.constructor | intake_hypothetic/hypothetic.py:34-43 | Keeps the key generator, the schedule and the mapping. The table, the template path and the dataset start as `None`. |
| HypotheticSourceModel.HypotheticSource.GenerateMetadata | intake_hypothetic/hypothetic.py:130-143 | Overwrites `forecast_reference_time` in the mapping with the fresh window, whatever it held, then builds the table from the new mapping. If the window raises, the mapping is unchanged. |
| HypotheticSourceModel.HypotheticSource.FindTemplateCube | intake_hypothetic/hypothetic.py:145-161 | The loop's result equals the first-match scan of the table. Before any table exists it fails. |
| HypotheticSourceModel.HypotheticSource.ExtractUniqueMetadata | intake_hypothetic/hypothetic.py:163-168 | The reduction of the stored table. Before any table exists it fails. |
| HypotheticSourceModel.HypotheticSource.OpenDataset | intake_hypothetic/hypothetic.py:45-51 | Each step's field update happens before the next step, and a failing step leaves the later fields as they were. On success it stores the template path of the first hit and the aggregate built from it, `'soil_temperature'`, the reduced coordinates and the uri column. |
| HypotheticSourceModel.HypotheticSource.LoadAggregate | intake_hypothetic/hypothetic.py:48-51 | The dataset becomes the builder's aggregate of the template, the reduced coordinates and the uri column. The reduction of `['uri']` cannot raise. |
| HypotheticSourceModel.HypotheticSource.GetSchema | intake_hypothetic/hypothetic.py:53-65 | An open dataset returns the cached schema and changes nothing. Otherwise it opens the dataset and caches the empty schema only if the opening succeeded. |
| HypotheticSourceModel.HypotheticSource.Close | intake_hypothetic/hypothetic.py:101-104 | Clears the dataset and the schema, and keeps the cache invariant |
| HypotheticSourceModel.HypotheticSource.ReadPartition | intake_hypothetic/hypothetic.py:76-95 | Loads the schema first when there is none. A failed opening is returned as the error and leaves no dataset. It then reads the named block, and a non-sequence index always fails. |
| HypotheticSourceModel.HypotheticSource.Reopen | intake_hypothetic/hypothetic.py:55-56 | After `close`, the next schema request rebuilds everything. The mapping holds the window of the new clock reading and every other key keeps its value, so the non-window columns are the same. On success the stored table is built from that mapping, the template path is the scan's first hit in it, and the dataset is built from that template and the new table. |
| HypotheticSourceModel.HypotheticSource.OpeningFacts | intake_hypothetic/hypothetic.py:45-51 | An opening leaves the new window in the mapping and, on success, the table built from that mapping |

## Findings

| source | as written | input that shows it | evidently intended | confidence | as-written member | corrected member |
|---|---|---|---|---|---|---|
| intake_hypothetic/hypothetic.py:87 | `isinstance(self._ds, CubeList)` names a class the module never imports (lines 1-15), so every tuple or list index raises `NameError` | `read_partition((1, 0, 0))` on any dataset | `iris.cube.CubeList`: the first component picks the cube, the rest indexes within it | not executed | PartitionIndex.ReadPartitionAsWritten | PartitionIndex.ReadPartition |

The class uses the corrected `PartitionIndex.ReadPartition`. `PartitionIndex.AsWrittenNeverReads` and `PartitionIndex.ThreeAggregatesExample` show the as-written discrepancy. `PartitionIndex.ReadPartitionSpec` states the intended behaviour.

## Left out

- The S3 fetch, the temporary file and `iris.load_cube` (lines 148-156) are one oracle, `TemplateDiscovery.Fetcher`. It answers found, missing key, or another failure. Releasing the temporary file is not modelled.
- `iris_hypothetic.load_hypotheticube` (line 50) is the oracle `HypotheticSourceModel.Builder`. `lazy_data()` and dask's `compute()` (lines 88-95) are reduced to `PartitionIndex.Materialize`, which records the index a deferred block is computed at.
- `_import_from` and the dynamic import of the key generator (lines 22-24, 131-133) are left out. The key generator is a function stored in the object.
- `datetime.now()` is a `Clock` parameter. `timedelta` arithmetic is integer seconds on a calendar-free day count, and `strftime` is an opaque `Formatter`.
- Run hours are exact reals. Python floats, and the precision `int(a / b)` loses beyond 2^52, are not modelled.
- pandas internals are reduced to a sequence of rows, each a map from column name to value. This covers `from_dict`, the dtype inference that turns ints into `numpy.int64`, NaN handling in `nunique`, and `apply` on an empty frame. A product with no tuples is modelled as an empty table with the single column `uri`.
- The intake base class `DataSource` and its `_load_metadata` are not part of this model. `read_partition` calls `_get_schema` when no schema is cached, which is what `_load_metadata` does.
- `read`, `read_chunked` and `to_dask` only return the cached dataset after loading the schema, and are left out.
- A `None` mapping (the constructor's default) is not modelled; the model always starts from a mapping.
- The mapping line 135 assigns into is the caller's own dict, so the caller sees the new window too. The field `metadata` is a value, and this aliasing is not captured.
- `Schedule.interval`, `Schedule.modelStartTime` and `Schedule.retention` are integers. A fractional start hour or interval in `frt_description` (Python accepts `1.5`) cannot be expressed.
- HypotheticSourceModel.HypotheticSource.FindTemplateCube: its contract gives the loop's result. The fact that rows after the deciding one are never examined is stated about the scan function (`TemplateDiscovery.SearchIgnoresLaterRows`), not about the loop's steps.
- The unused `warnings` and `importlib` imports (lines 2, 4) have no behaviour to model.
