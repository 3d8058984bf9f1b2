# UCI HAR window loader, modelled in Dafny

This project models how the `sensorutils` UCI HAR loader
(`src/sensorutils/datasets/ucihar.py`) assembles samples. It covers:

- the **meta tables**: each split's activity-label column and subject column, set side by side (module `load_meta`);
- the **window stacking**: choosing one of four signal file sets from the `train` and `include_gravity` flags, then stacking x, y and z into a `(samples, 3, timesteps)` array (module `load`);
- the **dataset object** `UCIHAR`, which
  - holds the two meta tables;
  - builds a retention mask by OR-ing `person_id == p` over the requested subjects;
  - row-selects the windows and the meta rows with that mask;
  - shifts activity codes from 1-based to 0-based;
  - pairs the shifted codes with the subject ids as targets.

Signal values are carried and reindexed, never computed on, so the window element type is a type parameter `T`.

Files:

- `wrappers.dfy`: `Option` and `Result`.
- `layout.dfy`: the parsed contents of the dataset directory (`Root`, `SplitFiles`, `Axes`, `Matrix`) and the two error conditions.
- `masking.dfy`: boolean-mask row selection (`Retain`) and the positions it keeps (`Indices`).
- `meta_tables.dfy`: the module-level `load_meta`.
- `signals.dfy`: the module-level `load`.
- `ucihar.dfy`: `PERSONS`, the class `UciHar` (fields `trainMetas` and `testMetas`, methods `LoadMeta` and `Load`), the pure specification `Assemble`/`LoadResult` that `Load` is proved against, and the lemmas about it.

Behaviour taken from the code:

- Setting two columns side by side with `pd.concat(axis=1)` aligns them on the row index. If the label file and the subject file differ in length, the shorter column is padded with NaN (`Cell.Missing`). A NaN subject id never equals a requested id. A NaN activity stays NaN after `-= 1`.
- If the number of windows differs from the number of meta rows, `load` raises: either the broadcast in the mask loop fails or the boolean index does not fit. Both cases are modelled as `Err(RowCountMismatch)`.
- If x, y and z differ in shape, `np.concatenate` raises. This is modelled as `Err(ShapeMismatch)`. `Signals.Stack` is built from two helpers for line 151: `Expand` (`m[:, np.newaxis, :]`) and `ConcatChannels` (`np.concatenate(..., axis=1)`).
- An empty file raises when read, so in the source no signal matrix and no label or subject column is ever empty. Reading is not modelled, and zero-row matrices and empty columns exist only in the model; the example dataset's test split is one.
- The defaults differ. The object's `load` defaults to `train=True, person_list=None, include_gravity=True`. The module-level `load` defaults to `train=True, include_gravity=False`. Both are kept as Dafny default parameter values.

## Model

| member | source | states |
|---|---|---|
| `MetaTables.Join` | src/sensorutils/datasets/ucihar.py:101 | the joined table has as many rows as the longer of the two columns |
| `MetaTables.JoinAt` | src/sensorutils/datasets/ucihar.py:99-102 | row i of the join is (label i, subject i), with NaN past the end of the shorter column |
| `MetaTables.JoinColumns` | src/sensorutils/datasets/ucihar.py:99-102 | when both files have the same length, the `activity` and `person_id` columns of the table are exactly the two files |
| `MetaTables.LoadMeta` | src/sensorutils/datasets/ucihar.py:85-110 | for each split, row i of the meta table pairs `y_{split}` line i with `subject_{split}` line i; the row count is the longer file's |
| `Signals.Stack` | src/sensorutils/datasets/ucihar.py:151 | stacking succeeds iff x, y and z have the same (rows, timesteps) shape; window i is then [x[i], y[i], z[i]] in that channel order; otherwise a shape error |
| `Signals.StackShape` | src/sensorutils/datasets/ucihar.py:151 | the stacked array has shape (samples, 3, timesteps) |
| `Signals.StackRoundTrip` | src/sensorutils/datasets/ucihar.py:151 | taking channel 0, 1 or 2 of the stacked array gives back the x, y or z file |
| `Signals.Load` | src/sensorutils/datasets/ucihar.py:113-153 | with defaults `train=True, include_gravity=False`, stacks the x, y and z files of the split picked by `train` (`train/` or `test/`), in the variant picked by `include_gravity` (`total_acc_*` or `body_acc_*`); it succeeds iff those three files share one shape, and window i is then [x[i], y[i], z[i]] |
| `Signals.LoadReadsOnlyChosenFiles` | src/sensorutils/datasets/ucihar.py:132-149 | the result depends only on the three files of the chosen split (`train`) and variant (`total_acc_*` with gravity, `body_acc_*` without) |
| `Signals.LoadDefaults` | src/sensorutils/datasets/ucihar.py:113 | the module-level `load` with its defaults reads the training split's `body_acc_*` files |
| `Masking.Retain` | src/sensorutils/datasets/ucihar.py:76-79 | a boolean row selection has one row per set flag |
| `Masking.Indices` | src/sensorutils/datasets/ucihar.py:76-79 | the kept positions are in range, all flagged, strictly ascending, and as many as the set flags |
| `Masking.IndicesComplete` | src/sensorutils/datasets/ucihar.py:76-79 | every flagged position is kept |
| `Masking.RetainAt` | src/sensorutils/datasets/ucihar.py:76-79 | row k of a selection is the row at the k-th flagged position: the original order is kept |
| `Masking.CountTrueZero` | src/sensorutils/datasets/ucihar.py:71-76 | a selection is empty iff no flag is set |
| `UciHarDataset.RangeMembers` | src/sensorutils/datasets/ucihar.py:13 | `range(lo, hi)` holds exactly the integers lo <= p < hi, so PERSONS is 1..30 |
| `UciHarDataset.BuildMask` | src/sensorutils/datasets/ucihar.py:71-74 | the mask is built from all-false by OR-ing `person_id == p` for each requested p; afterwards flag j is set iff row j's subject id is one of the requested ids |
| `UciHarDataset.DecrementLabels` | src/sensorutils/datasets/ucihar.py:77-78 | each selected activity code is decremented by one, NaN stays NaN, and the length is unchanged |
| `UciHarDataset.Assemble` | src/sensorutils/datasets/ucihar.py:71-82 | filtering fails (row-count error) exactly when windows and meta rows differ in number |
| `UciHarDataset.UciHar.constructor` | src/sensorutils/datasets/ucihar.py:18-21 | a new object holds its root and the meta tables of both splits |
| `UciHarDataset.UciHar.LoadMeta` | src/sensorutils/datasets/ucihar.py:23-26 | sets `train_metas` and `test_metas` to the meta tables of the root and changes nothing else; calling it again gives the same tables |
| `UciHarDataset.UciHar.Load` | src/sensorutils/datasets/ucihar.py:28-82 | returns the stacked windows of the chosen split and variant, filtered and paired with targets as `Assemble` specifies, for the chosen split's meta table; changes no field |
| `UciHarDataset.LoadTwice` | src/sensorutils/datasets/ucihar.py:76-82 | two `load` calls with the same arguments return the same result: `load` changes no field (the decrement acts on a copy made by boolean indexing), and the dataset directory is taken as unchanging |
| `UciHarDataset.LoadWithDefaults` | src/sensorutils/datasets/ucihar.py:28 | the object's `load` with its defaults returns the training split's `total_acc_*` windows, filtered over every subject in PERSONS against `train_metas` |
| `UciHarDataset.DefaultRetainsKnownSubjects` | src/sensorutils/datasets/ucihar.py:72 | with no subject list, row j is retained iff its subject id lies in 1..30 |
| `UciHarDataset.RetainedExactlyRequested` | src/sensorutils/datasets/ucihar.py:71-76 | row j is among the retained rows iff its subject id is one of the requested ids |
| `UciHarDataset.AssembleAligned` | src/sensorutils/datasets/ucihar.py:76-80 | windows and targets both have one row per retained sample; row k of each belongs to the k-th retained sample in original order; target k is [activity - 1, person_id] of that sample |
| `UciHarDataset.TargetsBelongToPersonList` | src/sensorutils/datasets/ucihar.py:79-80 | every output subject id is a requested id |
| `UciHarDataset.ActivitiesZeroBased` | src/sensorutils/datasets/ucihar.py:78 | when every retained row's activity code is in [1, 6], every output activity is in [0, 5] |
| `UciHarDataset.EmptyPersonListRetainsNothing` | src/sensorutils/datasets/ucihar.py:71-76 | an empty subject list gives zero windows and zero targets |
| `UciHarDataset.SameIdsSameResult` | src/sensorutils/datasets/ucihar.py:73-74 | two subject lists with the same members give the same result, whatever their order |
| `UciHarDataset.RepeatedIdIgnored` | src/sensorutils/datasets/ucihar.py:73-74 | requesting an id a second time changes nothing (OR is idempotent) |
| `UciHarDataset.AbsentIdIgnored` | src/sensorutils/datasets/ucihar.py:73-74 | requesting an id that no row of the split carries changes nothing |
| `UciHarDataset.TwoSampleExample` | src/sensorutils/datasets/ucihar.py:56-82 | two windows of two steps, activities [1, 2] and subjects [3, 3], loaded for subject 3 without gravity, give windows of shape (2, 3, 2) and targets [[0, 3], [1, 3]] |

## Left out

- Reading and parsing files (`pd.read_csv`), building paths and converting `str` to `Path` are not modelled. Each file is given by its parsed contents in `Layout.Root`. A read or parse failure is not modelled. Neither is a ragged signal file or a label file with more than one column.
- The dataset directory is assumed not to change while the object lives. The source reads the meta files once, at construction, and reads the signal files again on every `load`; a directory changed between calls would make the windows disagree with the stored meta tables. The model's root is a constant, so this cannot happen there.
- The base dataset class is not part of this model. It only provides `path`, which is the `root` constant here.
- The exception type is not distinguished. The source raises `ValueError` from broadcasting or `IndexError` from boolean indexing on a row-count mismatch. The model returns one `RowCountMismatch` and checks for it before building the mask, not at the statement that raises.
- The `np.bool` dtype alias used for the mask is missing in some NumPy releases. The model assumes it means the boolean dtype.
- An empty result array's trailing dimensions are not represented. The model returns zero windows as an empty sequence, with no `(0, 3, T)` width and no `(0, 2)` target width.
- The numeric dtype is not modelled. This includes targets becoming floating point when a NaN is present.
- Which subjects occur in the real train and test files (21 and 9 ids) is a property of the data, not of the code, and is not stated.
- `ACTIVITIES` is kept as a constant but nothing in the core uses it.
- The metric functions (`metrics.py`) and the descriptive statistics (`stats.py`) are floating-point formulas and are not part of this model.
