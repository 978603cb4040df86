# MDIntrinsicDimension in Dafny

MDIntrinsicDimension estimates the intrinsic dimension (ID) of molecular-dynamics trajectories.
It turns a trajectory into a feature matrix (a *projection*: pairwise atom distances or
backbone dihedrals). It then hands the matrix to a scikit-dimension estimator. This is done
either per frame (*local*) or for the whole trajectory (*global*). Around this the package
has three scanners. Two cut the protein into sliding residue windows. The third cuts it
into its secondary-structure elements, as computed by DSSP on a reference structure. Every
window or element is estimated separately.

This project models the package's own logic and proves properties of it. That logic is
the bookkeeping around the libraries it calls: keyword defaults, input resolution,
projection dispatch, estimator routing, tail slicing, atom-pair enumeration, window
arithmetic and run-length segmentation. MoleculeKit, DSSP, the file system and the
estimators become function-typed fields of `Common.Env`. A molecule is a frame count and
a sequence of atoms carrying their identity fields.

Modules, one per source file, plus three shared ones:

- `Common`: Python values, the raised exceptions as an `Error` datatype, molecules, the collaborators, and input resolution.
- `PySeq`: Python sequence semantics: slicing, negative indices, `range`, `np.unique`, and the appending `for` loop (`Collect`).
- `Text`: `str(int)`, 3-digit zero padding, `' '.join` and whitespace splitting.
- `ComputeId`: md_intrinsic_dimension/compute_id.py.
- `ComputeProjections`: intrinsic_dimension/compute_projections.py. The pair table is an `array2` filled by the nested loops.
- `ProjectionDispatch`: the string resolution both engines share.
- `MdEngine`: md_intrinsic_dimension/md_intrinsic_dimension.py. `KwargsDict` is a class whose `Pop` mutates the caller's dictionary.
- `LegacyEngine`: intrinsic_dimension/intrinsic_dimension.py.
- `SectionId`: intrinsic_dimension/section_id.py.
- `SectionWindows`: intrinsic_dimension/section_intrinsic_dimension.py.
- `SecondaryStructure`: md_intrinsic_dimension/secondary_structure_id.py.

Each scanner is a method whose loop appends records. Its `ensures` ties the result to a
recursive specification function, and lemmas state what that function promises. Where
the code and its docstrings disagree, the model follows the code (the one place where
the code cannot be followed is the first line under "Left out"):

- The docstring of `compute_local` lists `mean_last` first, but the code returns `(mean_all, mean_last, lid)`.
- `compute_projections` promises a ValueError for an unknown method, but the code returns None.
- `section_intrinsic_dimension` logs a window count one short of the number of windows it scans.

The md package imports `compute_projections` from its own directory, and the legacy
package imports `compute_id` from its own directory. Neither of those two files is part of
this model. Both are taken to be the sibling files that are:
intrinsic_dimension/compute_projections.py and md_intrinsic_dimension/compute_id.py.

## Model

| member | source | states |
|---|---|---|
| Common.Select | md_intrinsic_dimension/secondary_structure_id.py:144-145 | an atom selection keeps exactly the atoms that match, and no more atoms than there were |
| Common.Filter | intrinsic_dimension/section_id.py:125-126 | filtering a copy keeps every frame and exactly the matching atoms; the original molecule is a value and stays as it was |
| Common.LoadInput | md_intrinsic_dimension/md_intrinsic_dimension.py:113-120 | specification function with no contract of its own: a given molecule is used as it is; otherwise the topology, then the trajectory, must exist, or a FileNotFoundError names the missing role; stated by `MdEngine.InputResolution`, `LegacyEngine.InputResolution` and each scanner's `CheckOrder` |
| PySeq.Slice | intrinsic_dimension/section_intrinsic_dimension.py:106 | `s[a:b]` is never longer than `s` and is the plain slice when the bounds are in range |
| PySeq.Tail | md_intrinsic_dimension/compute_id.py:38 | `s[-last:]`: the final `min(last, n)` items for positive `last`; all of `s` for `last == 0` or `last >= n`; `s` without its first `-last` items for negative `last` |
| PySeq.At | intrinsic_dimension/section_id.py:122-123 | indexing succeeds exactly for `-n <= i < n`, counts from the end for negative `i`, and raises IndexError otherwise |
| PySeq.Range | intrinsic_dimension/section_id.py:110 | `range(0, stop, step)` has `RangeLen` items, item `k` is `k*step`; for a positive step all lie in `[0, stop)` and the next multiple reaches `stop` |
| PySeq.Unique | intrinsic_dimension/section_id.py:105-106 | `np.unique` gives a strictly ascending list with exactly the input's values, no longer than the input |
| PySeq.DistinctCard | intrinsic_dimension/section_id.py:106 | a strictly ascending list holds one entry per distinct value |
| PySeq.CollectErrorPersists | intrinsic_dimension/section_id.py:121-140 | once an iteration of an appending loop raises, the loop's result is that error |
| PySeq.CollectOkIff | intrinsic_dimension/section_id.py:121-140 | an appending loop succeeds exactly when every iteration does |
| PySeq.CollectOk | intrinsic_dimension/section_id.py:121-140 | a successful appending loop has one record per item, record `k` being iteration `k`'s |
| PySeq.CollectLoop | intrinsic_dimension/section_id.py:118-141 | the `for` loop appending to `results` computes `Collect` |
| Text.NatToStringRoundTrip | intrinsic_dimension/section_id.py:124 | the decimal digits of `str(n)` read back as `n` |
| Text.IntToStringRoundTrip | intrinsic_dimension/section_id.py:124 | a residue number written into a selection string reads back as itself, sign included |
| Text.ZeroPad3Value | intrinsic_dimension/section_intrinsic_dimension.py:111 | `f'{v:03d}'` denotes `v`, has exactly 3 digits below 1000, and is plain `str(v)` from 3 digits on |
| Text.SplitJoin | intrinsic_dimension/section_intrinsic_dimension.py:107 | splitting a space-joined list of space-free words gives back the words |
| ComputeId.Mean | md_intrinsic_dimension/compute_id.py:38-39 | `np.mean` is NaN exactly for an empty series |
| ComputeId.MeanScales | md_intrinsic_dimension/compute_id.py:38-39 | a mean of a non-empty series times its length equals the sum |
| ComputeId.MeanBounds | md_intrinsic_dimension/compute_id.py:38-39 | a mean lies between any lower and upper bound of the values |
| ComputeId.EstimatorName | md_intrinsic_dimension/compute_id.py:35 | the estimator is found exactly when it is a string naming an existing estimator; otherwise TypeError or AttributeError |
| ComputeId.ComputeLocal | md_intrinsic_dimension/compute_id.py:35-41 | specification function with no contract of its own, modelling the code as written (there is only one version): estimator lookup, the per-frame series, then `(mean_all, mean_last, lid)`; stated by `LocalContract` and `LocalMeanLast` |
| ComputeId.ComputeGlobal | md_intrinsic_dimension/compute_id.py:74-79 | specification function with no contract of its own, modelling the code as written: one fit on all frames, one on the trailing `last`; stated by `GlobalContract` and `GlobalShortProjection` |
| ComputeId.LocalContract | md_intrinsic_dimension/compute_id.py:35-41 | `compute_local` succeeds exactly when the estimator exists, gives a series and `last` is an integer; it returns `(mean_all, mean_last, lid)` with `lid` the estimator's series, `mean_all` its mean (NaN exactly when empty) and `mean_last` the mean of `lid[-last:]` |
| ComputeId.LocalMeanLast | md_intrinsic_dimension/compute_id.py:38-39 | `mean_last == mean_all` for `last == 0` or `last >= n`; the final `last` values for `0 < last < n`; all but the first `-last` values for negative `last` |
| ComputeId.GlobalContract | md_intrinsic_dimension/compute_id.py:74-79 | `compute_global` fits one estimator on every frame and on `projection[-last:]` and returns `(gid, gid100)`; it succeeds exactly when both fits do, and a failing first fit is the error |
| ComputeId.GlobalShortProjection | md_intrinsic_dimension/compute_id.py:77 | with `last == 0` or `last` at least the frame count, `gid100 == gid` |
| ComputeProjections.StrideFrom | intrinsic_dimension/compute_projections.py:66 | `s[0::step]` has `ceil(n/step)` items, item `k` being `s[k*step]` |
| ComputeProjections.Stride | intrinsic_dimension/compute_projections.py:60-66 | a `None` step keeps every atom, as numpy reads it as a step of 1; otherwise the step must be a non-zero integer (a zero step and a non-integer step are distinct errors); a positive step strides from the first atom; a negative step keeps at most the first atom |
| ComputeProjections.IndexPairsShape | intrinsic_dimension/compute_projections.py:67-73 | the nested loops give `n(n-1)/2` pairs `i < j < n`, every such pair, each once |
| ComputeProjections.PairsFromCount | intrinsic_dimension/compute_projections.py:67-73 | from outer index `i` on, the loops visit `(n-i)(n-i-1)/2` pairs |
| ComputeProjections.PairsFromBounds | intrinsic_dimension/compute_projections.py:70-72 | every pair visited from outer index `i` on has `i <= a < b < n` |
| ComputeProjections.PairsFromComplete | intrinsic_dimension/compute_projections.py:70-72 | every `i <= a < b < n` is visited |
| ComputeProjections.PairsFromSorted | intrinsic_dimension/compute_projections.py:70-73 | the visits come in strictly increasing lexicographic order |
| ComputeProjections.AtomPairs | intrinsic_dimension/compute_projections.py:67-73 | one atom pair per index pair, `n(n-1)/2` of them |
| ComputeProjections.AtomPairsAt | intrinsic_dimension/compute_projections.py:72 | row `t` is `[atoms[i], atoms[j]]` for the `t`-th index pair `(i, j)`, and `i < j` |
| ComputeProjections.SelectionsNamePairs | intrinsic_dimension/compute_projections.py:75-76 | `sel1` and `sel2` have one `'index a'` string per pair row, naming the row's first and second atom |
| ComputeProjections.Project | intrinsic_dimension/compute_projections.py:49-93 | None is returned exactly for a non-empty molecule and a method other than 'Distances' and 'Dihedrals' |
| ComputeProjections.ProjectGuards | intrinsic_dimension/compute_projections.py:50-55 | no frames is refused first, then no atoms, whatever the method |
| ComputeProjections.ProjectDefaults | intrinsic_dimension/compute_projections.py:58-92 | without kwargs: every pair of the 'protein and name CA' atoms under the 'distances' metric, or phi/psi without sine/cosine |
| ComputeProjections.ProjectRejectsMetric | intrinsic_dimension/compute_projections.py:61-63 | a metric other than 'distances' or 'contacts' is a ValueError; this is the evident meaning of line 63, which as written does not compile (see "Left out") |
| ComputeProjections.BuildPairs | intrinsic_dimension/compute_projections.py:67-73 | the preallocated `(dim, 2)` array, filled in place by the nested loops, holds row `t` = the `t`-th atom pair |
| ComputeProjections.FillRow | intrinsic_dimension/compute_projections.py:71-73 | the inner loop writes the pairs `(i, j)`, `i < j < n`, at the next rows and advances `k` by their number |
| ComputeProjections.ComputeProjections | intrinsic_dimension/compute_projections.py:49-93 | the method with the array-filling loops computes `Project` |
| ProjectionDispatch.ToLower | md_intrinsic_dimension/md_intrinsic_dimension.py:133 | `str.lower()` maps each character to its lower-case form |
| ProjectionDispatch.ToLowerIdempotent | md_intrinsic_dimension/md_intrinsic_dimension.py:133 | no upper-case letter is left, and lower-casing twice changes nothing |
| ProjectionDispatch.DynamicNames | md_intrinsic_dimension/md_intrinsic_dimension.py:133-134 | two names share a class name exactly when equal, and a module name exactly when equal ignoring case |
| ProjectionDispatch.BuiltinKwargs | md_intrinsic_dimension/md_intrinsic_dimension.py:99-102 | 'Distances' passes only `sele` and `step`, 'Dihedrals' only `dihedrals` and `sincos`, each read with its default |
| ProjectionDispatch.BuiltinDefaults | md_intrinsic_dimension/md_intrinsic_dimension.py:99-102 | the defaults are sele 'name CA', step 1, dihedrals ('phi', 'psi'), sincos False |
| ProjectionDispatch.CustomProjection | md_intrinsic_dimension/md_intrinsic_dimension.py:131-144 | a dynamic name succeeds exactly when `Metric<name>` in `moleculekit.projections.metric<lower name>` projects; any failure is an ImportError carrying both names |
| ProjectionDispatch.CaseSensitiveBuiltins | md_intrinsic_dimension/md_intrinsic_dimension.py:126-144 | 'dihedrals' and 'distances' are not built-in; 'dihedrals' goes to dynamic resolution |
| ProjectionDispatch.LowerCaseDihedralsNames | md_intrinsic_dimension/md_intrinsic_dimension.py:133-134 | 'dihedrals' is looked up as `Metricdihedrals` in `moleculekit.projections.metricdihedrals` |
| MdEngine.KwargsDict.Pop | md_intrinsic_dimension/md_intrinsic_dimension.py:103-104 | `pop` returns the value or the default and removes the key from the caller's dictionary |
| MdEngine.DispatchAsWritten | md_intrinsic_dimension/md_intrinsic_dimension.py:126-155 | as written; specification function with no contract of its own: the membership test comes first, so an array is a TypeError; stated by `ArrayRejectedAsWritten`, `DispatchOrder` and `AsWrittenAgreesElsewhere` |
| MdEngine.Dispatch | md_intrinsic_dimension/md_intrinsic_dimension.py:126-155 | an array is used unchanged, another object is a TypeError, and otherwise it agrees with the code as written |
| MdEngine.RouteAsWritten | md_intrinsic_dimension/md_intrinsic_dimension.py:160-169 | as written; specification function with no contract of its own: a `projection` key left in the id kwargs is a TypeError at either adapter call, and a local estimate falls through to the `else` of the global test; stated by `LocalAlwaysFailsAsWritten` |
| MdEngine.Route | md_intrinsic_dimension/md_intrinsic_dimension.py:160-169 | 'local' gives `compute_local`, 'global' gives `compute_global`, anything else a TypeError naming it; for either id method a `projection` key left in the id kwargs is passed twice to the adapter call, a TypeError before any estimator runs |
| MdEngine.EstimateAsWritten | md_intrinsic_dimension/md_intrinsic_dimension.py:96-171 | as written; specification function with no contract of its own: settings, input, `DispatchAsWritten`, `RouteAsWritten`; stated by `EstimatorSettings`, `LocalEstimateFailsAsWritten` and `AsWrittenAgreesElsewhere` |
| MdEngine.Estimate | md_intrinsic_dimension/md_intrinsic_dimension.py:96-171 | corrected; specification function with no contract of its own: the same steps with `Dispatch` and `Route`; stated by `EstimatorSettings`, `InputResolution` and the lemmas about `Dispatch` and `Route` |
| MdEngine.PopSettings | md_intrinsic_dimension/md_intrinsic_dimension.py:97-104 | a missing or empty dictionary pops from a fresh one; the settings are the caller's `estimator` and `last` or TwoNN and 100; the caller's dictionary, and the rest handed on, lose exactly those two keys |
| MdEngine.IntrinsicDimensionAsWritten | md_intrinsic_dimension/md_intrinsic_dimension.py:96-171 | as written: the caller's dictionary loses `estimator` and `last` whatever the outcome; the result is `EstimateAsWritten` on the dictionary as it was |
| MdEngine.IntrinsicDimension | md_intrinsic_dimension/md_intrinsic_dimension.py:96-171 | corrected: the caller's dictionary loses `estimator` and `last` whatever the outcome; the result is `Estimate` on the dictionary as it was |
| MdEngine.EstimatorSettings | md_intrinsic_dimension/md_intrinsic_dimension.py:103-104 | without id kwargs, TwoNN over the last 100 frames with no extra constructor arguments |
| MdEngine.InputResolution | md_intrinsic_dimension/md_intrinsic_dimension.py:113-117 | a given molecule makes the paths irrelevant; else a missing topology is reported before the trajectory, each naming its role |
| MdEngine.DispatchOrder | md_intrinsic_dimension/md_intrinsic_dimension.py:126-155 | built-in name, other string, Projection object, array unchanged, otherwise TypeError |
| MdEngine.LocalAlwaysFailsAsWritten | md_intrinsic_dimension/md_intrinsic_dimension.py:160-169 | as written, 'local' never returns: a `projection` key clashes at the call, the local estimator fails, or the TypeError follows it |
| MdEngine.LocalEstimateFailsAsWritten | md_intrinsic_dimension/md_intrinsic_dimension.py:113-169 | as written, the whole function with 'local' raises for every input and every outcome of the projection and the estimator |
| MdEngine.ProjectionKeyClashes | md_intrinsic_dimension/md_intrinsic_dimension.py:103-104 | a `projection` key in the caller's id kwargs survives the two pops; once input and projection are resolved, both engines raise TypeError at the `compute_local` or `compute_global` call at lines 162 and 165 |
| MdEngine.ArrayRejectedAsWritten | md_intrinsic_dimension/md_intrinsic_dimension.py:126 | as written, an array fails the hash in the membership test with a TypeError; corrected, it is used unchanged |
| MdEngine.AsWrittenAgreesElsewhere | md_intrinsic_dimension/md_intrinsic_dimension.py:123-169 | for names and Projection objects the written and corrected engines agree on every id method but 'local' |
| LegacyEngine.Dispatch | intrinsic_dimension/intrinsic_dimension.py:121-141 | a string goes to name resolution; anything else is a TypeError |
| LegacyEngine.Route | intrinsic_dimension/intrinsic_dimension.py:146-156 | 'local' gives `compute_local`, 'global' gives `compute_global`, both without extra kwargs; anything else a TypeError |
| LegacyEngine.Estimate | intrinsic_dimension/intrinsic_dimension.py:91-156 | specification function with no contract of its own, modelling the code as written (it has no defect this model corrects): `get` defaults, input, `Dispatch`, `Route`; stated by `OnlyEstimatorAndLastMatter`, `InputResolution`, `NonStringRejected` and `DefaultIsDynamic` |
| LegacyEngine.DefaultIsDynamic | intrinsic_dimension/intrinsic_dimension.py:18 | the default 'Distance' is not a built-in key and goes to dynamic resolution |
| LegacyEngine.DefaultNames | intrinsic_dimension/intrinsic_dimension.py:128-129 | it is looked up as `MetricDistance` in `moleculekit.projections.metricdistance` |
| LegacyEngine.OnlyEstimatorAndLastMatter | intrinsic_dimension/intrinsic_dimension.py:98-99 | the result depends on the id kwargs only through `estimator` and `last`, read with `.get` |
| LegacyEngine.InputResolution | intrinsic_dimension/intrinsic_dimension.py:108-115 | a given molecule makes the paths irrelevant; else topology is checked before trajectory |
| LegacyEngine.NonStringRejected | intrinsic_dimension/intrinsic_dimension.py:140-141 | any non-string projection method is a TypeError |
| SectionId.WindowSelectionParses | intrinsic_dimension/section_id.py:124 | the selection splits into `resid <start> to <end>`, and the numbers read back as `start` and `end` |
| SectionId.EngineMethod | intrinsic_dimension/section_id.py:128-131 | 'local' stays local and every other id method is sent as 'global' |
| SectionId.SectionIdSpec | intrinsic_dimension/section_id.py:89-143 | specification function with no contract of its own, modelling the code as written: window-size check, input, `np.unique` of every atom's resid (`sel='all'`), one record per window; stated by `SectionIdMethod`, `CheckOrder`, `PositiveStrideOk`, `RowsOfWindows` and `PositiveStrideRows` |
| SectionId.Windows | intrinsic_dimension/section_id.py:110 | for a positive stride every window position `p` has `0 <= p` and `p + w <= R` |
| SectionId.SectionIdMethod | intrinsic_dimension/section_id.py:89-143 | the scan computes `SectionIdSpec`: window-size check, input, `np.unique` of every resid, one record per window |
| SectionId.PyMod | intrinsic_dimension/section_id.py:113 | Python's `%` takes the divisor's sign and satisfies `a == (a // b) * b + a % b` |
| SectionId.WindowCount | intrinsic_dimension/section_id.py:110-111 | `floor((R-w)/s) + 1` windows when `R >= w`, none otherwise; window `k` starts at `k*s` |
| SectionId.LeftoverAfterLastWindow | intrinsic_dimension/section_id.py:113-116 | the last window ends exactly `(R-w) mod s` residues before the end |
| SectionId.ScanInside | intrinsic_dimension/section_id.py:121-140 | an in-range window succeeds exactly when its estimate does, and records `resids[i]`, `resids[i+w-1]` |
| SectionId.PositiveStrideOk | intrinsic_dimension/section_id.py:121-140 | with a positive stride the scan succeeds exactly when every window's estimate does |
| SectionId.RowsOfWindows | intrinsic_dimension/section_id.py:118-140 | a successful scan has one record per window position: its start and end resids `resids[p]`, `resids[p+w-1]` and that window's successful estimate |
| SectionId.PositiveStrideRows | intrinsic_dimension/section_id.py:121-140 | record `k` has `start = resids[k-th position]`, `end = resids[position + w - 1]` and that window's estimate |
| SectionId.PositiveStrideAscending | intrinsic_dimension/section_id.py:121-140 | the records come in ascending position order, each with `start < end` |
| SectionId.NegativeStride | intrinsic_dimension/section_id.py:110-121 | with a negative stride there are no windows, or the first lookup is out of range |
| SectionId.CheckOrder | intrinsic_dimension/section_id.py:89-110 | `window_size <= 1` is refused before any file is looked at; a zero stride fails after loading |
| SectionId.RowShape | intrinsic_dimension/section_id.py:128-132 | a local run records the series, any other id method a global estimate with an empty series |
| SectionWindows.Words | intrinsic_dimension/section_intrinsic_dimension.py:107 | `map(str, window)` gives one word per residue |
| SectionWindows.WindowSelectionSplits | intrinsic_dimension/section_intrinsic_dimension.py:107 | the selection splits into `protein and resid` followed by the residue words |
| SectionWindows.SelectionText | intrinsic_dimension/section_intrinsic_dimension.py:107 | joining the prefix words and the residue words with spaces is the string `'protein and resid '` followed by the joined residue words |
| SectionWindows.WindowSelectionParses | intrinsic_dimension/section_intrinsic_dimension.py:107 | the selection names exactly the window's residues, in order |
| SectionWindows.MinMaxExtremes | intrinsic_dimension/section_intrinsic_dimension.py:120 | `min` of a non-empty window is one of its elements and no larger than any other; `max` one no smaller than any other |
| SectionWindows.AscendingBounds | intrinsic_dimension/section_intrinsic_dimension.py:120 | on an ascending window `(min, max)` is `(first, last)` |
| SectionWindows.RowOf | intrinsic_dimension/section_intrinsic_dimension.py:118-124 | a record exists exactly for a non-empty window; it carries `(min, max)` and the window index |
| SectionWindows.WindowAt | intrinsic_dimension/section_intrinsic_dimension.py:106 | an in-range window is the slice `resids[i:i+w]` |
| SectionWindows.SectionSpec | intrinsic_dimension/section_intrinsic_dimension.py:79-127 | specification function with no contract of its own, modelling the code as written: input, `np.unique` of protein resids, one record per window; stated by `SectionIntrinsicDimension`, `CheckOrder`, `PositiveStrideOk` and `PositiveStrideRows` |
| SectionWindows.SectionIntrinsicDimension | intrinsic_dimension/section_intrinsic_dimension.py:79-127 | the scan computes `SectionSpec`: input, `np.unique` of protein resids, one record per window |
| SectionWindows.CheckOrder | intrinsic_dimension/section_intrinsic_dimension.py:79-98 | no window-size check; 'PDB' is checked before 'DCD'; a zero stride is a ZeroDivisionError |
| SectionWindows.ScanInside | intrinsic_dimension/section_intrinsic_dimension.py:105-124 | an in-range window is non-empty, and succeeds exactly when its estimate does |
| SectionWindows.SliceIncreasing | intrinsic_dimension/section_intrinsic_dimension.py:106 | a slice of a strictly ascending residue list is strictly ascending |
| SectionWindows.SliceBounds | intrinsic_dimension/section_intrinsic_dimension.py:106-120 | the `(min, max)` of a non-empty slice `s[i:j]` of an ascending list is `(s[i], s[j-1])` |
| SectionWindows.WindowBounds | intrinsic_dimension/section_intrinsic_dimension.py:105-120 | for ascending ids and a positive stride, every scanned window's `min` is its first resid and its `max` its last |
| SectionWindows.RowsOfWindows | intrinsic_dimension/section_intrinsic_dimension.py:105-124 | a successful scan has one record per window position `p`, carrying the label of `p` and the `(min, max)` of `resids[p:p+w]` |
| SectionWindows.PositiveStrideOk | intrinsic_dimension/section_intrinsic_dimension.py:105-124 | with a positive stride the scan succeeds exactly when every window's estimate does |
| SectionWindows.PositiveStrideRows | intrinsic_dimension/section_intrinsic_dimension.py:105-124 | record `k` comes from position `p = k*stride`: it carries the label of `p` and `resids == (resids[p], resids[p+w-1])` for ascending ids |
| SectionWindows.WindowLabelDigits | intrinsic_dimension/section_intrinsic_dimension.py:111 | the label of position `i` has at least 3 digits and denotes `i + 1`; below 1000 it has exactly 3 |
| SectionWindows.EmptyWindowFails | intrinsic_dimension/section_intrinsic_dimension.py:106-120 | an empty window raises: the estimate's error, or `min` of an empty sequence |
| SectionWindows.LoggedCountIsOneShort | intrinsic_dimension/section_intrinsic_dimension.py:98-105 | the logged `windows_number` is one less than the number of windows scanned |
| SecondaryStructure.FirstMismatch | md_intrinsic_dimension/secondary_structure_id.py:126-129 | the first compared key on which some atom differs, or none when all agree |
| SecondaryStructure.ValidateReference | md_intrinsic_dimension/secondary_structure_id.py:119-129 | None is a FileNotFoundError; the default class is refused; then more than one frame, then differing atom counts, then a differing key; an accepted reference is returned |
| SecondaryStructure.DefaultReferenceNotMissingAsWritten | md_intrinsic_dimension/secondary_structure_id.py:17 | as written, leaving `mol_ref` out passes the `Molecule` class, which is not None, so the call fails because the class is not a molecule, not with the missing-reference error |
| SecondaryStructure.DefaultReferenceMissing | md_intrinsic_dimension/secondary_structure_id.py:119-120 | with a default of None, leaving `mol_ref` out is the FileNotFoundError for a missing reference |
| SecondaryStructure.ValidReference | md_intrinsic_dimension/secondary_structure_id.py:122-129 | a reference is accepted exactly when it has at most one frame and the same atoms with the same name, resid, resname, chain and segid |
| SecondaryStructure.FieldMismatchIsFirst | md_intrinsic_dimension/secondary_structure_id.py:126-129 | a field mismatch names the first of name, resid, resname, chain, segid that differs |
| SecondaryStructure.BuildTable | md_intrinsic_dimension/secondary_structure_id.py:144-149 | row `i` pairs the `i`-th CA atom's resid and resname with the `i`-th DSSP label; columns of unequal length are a ValueError |
| SecondaryStructure.Spans | md_intrinsic_dimension/secondary_structure_id.py:151-166 | the runs among the first `n` rows are non-empty row ranges below `n`; the first starts at row 0, the last ends at row `n - 1` |
| SecondaryStructure.SpansAdjacent | md_intrinsic_dimension/secondary_structure_id.py:159-162 | each run starts on the row after the previous run's last row |
| SecondaryStructure.SpansConstant | md_intrinsic_dimension/secondary_structure_id.py:155-163 | every row of a run carries the run's label |
| SecondaryStructure.SpansMaximal | md_intrinsic_dimension/secondary_structure_id.py:158-163 | neighbouring runs carry different labels |
| SecondaryStructure.SpansCount | md_intrinsic_dimension/secondary_structure_id.py:155-166 | there are `1 +` (number of label changes) runs |
| SecondaryStructure.RunSegments | md_intrinsic_dimension/secondary_structure_id.py:164-167 | one segment per run |
| SecondaryStructure.RunSegmentsMeaning | md_intrinsic_dimension/secondary_structure_id.py:151-167 | segments run from the first to the last resid; each type is the label of every row of its run; consecutive types differ; `1 +` changes of them |
| SecondaryStructure.Zip3 | md_intrinsic_dimension/secondary_structure_id.py:167 | `zip` stops at the shortest list and item `k` combines the `k`-th entries |
| SecondaryStructure.ScanStep | md_intrinsic_dimension/secondary_structure_id.py:155-163 | one iteration keeps the scan's lists equal to the closed runs and `ss_start` at the open run's first resid |
| SecondaryStructure.ZipIsRunSegments | md_intrinsic_dimension/secondary_structure_id.py:164-167 | closing the open run with the last row's resid and label yields exactly the run segments |
| SecondaryStructure.RunLengths | md_intrinsic_dimension/secondary_structure_id.py:151-167 | the loop computes the run segments; an empty table is an IndexError |
| SecondaryStructure.Processed | md_intrinsic_dimension/secondary_structure_id.py:171-174 | a segment is kept exactly when `end - start >= 1` on residue numbers |
| SecondaryStructure.ProcessedPrefix | md_intrinsic_dimension/secondary_structure_id.py:171-174 | the kept segments of a prefix are a prefix of the kept segments, so order is preserved |
| SecondaryStructure.SegmentRows | md_intrinsic_dimension/secondary_structure_id.py:170-195 | corrected; specification function with no contract of its own: the appending loop over the kept segments, each estimated with the caller's id kwargs; stated by `SegmentRowsMeaning`, `SegmentsStep` and `SegmentFails` |
| SecondaryStructure.SegmentRowsAsWritten | md_intrinsic_dimension/secondary_structure_id.py:170-195 | as written; specification function with no contract of its own: the same loop threading one dictionary that each estimate pops; stated by `AsWrittenStep`, `AsWrittenErrorPersists`, `AsWrittenAgreesWithoutSettings` and `SecondSegmentLosesSettingsAsWritten` |
| SecondaryStructure.AsWrittenErrorPersists | md_intrinsic_dimension/secondary_structure_id.py:171-195 | once a segment's estimate raises, it is the result |
| SecondaryStructure.SegmentRowsMeaning | md_intrinsic_dimension/secondary_structure_id.py:171-195 | the intended loop succeeds exactly when every kept segment's estimate does; record `k` is the `k`-th kept segment's, with the caller's id kwargs |
| SecondaryStructure.AsWrittenAgreesWithoutSettings | md_intrinsic_dimension/secondary_structure_id.py:171-195 | without `estimator` and `last` in the caller's id kwargs, the written loop gives the intended records and leaves the dictionary as it was |
| SecondaryStructure.SecondSegmentLosesSettingsAsWritten | md_intrinsic_dimension/secondary_structure_id.py:181-184 | as written, the second kept segment is estimated without the caller's `estimator` and `last` (TwoNN over 100 frames); intended, with them |
| SecondaryStructure.CheckOrder | md_intrinsic_dimension/secondary_structure_id.py:110-141 | input files first, then a missing reference, then the default class, then more than one frame; an accepted input has had DSSP run on the reference |
| SecondaryStructure.RowShape | md_intrinsic_dimension/secondary_structure_id.py:181-195 | each record carries its segment's start, end and type; a non-local id method gives an empty series |
| SecondaryStructure.SegmentBody | md_intrinsic_dimension/secondary_structure_id.py:181-195 | corrected: one segment's body estimates its window with the given dictionary, which loses `estimator` and `last` |
| SecondaryStructure.SegmentBodyAsWritten | md_intrinsic_dimension/secondary_structure_id.py:175-195 | as written: one segment's body filters the copy and calls the md engine as written with the shared dictionary; its record is `EstimateSegment` over `ContextAsWritten`, and the dictionary loses `estimator` and `last` |
| SecondaryStructure.AsWrittenStep | md_intrinsic_dimension/secondary_structure_id.py:171-195 | one iteration of the written loop skips a short segment, appends a successful record with the dictionary losing the consumed keys, or ends the scan with the estimate's error |
| SecondaryStructure.SegmentsStep | md_intrinsic_dimension/secondary_structure_id.py:171-195 | one iteration of the intended loop skips a short segment, appends a successful record, or ends the scan with the estimate's error |
| SecondaryStructure.SegmentFails | md_intrinsic_dimension/secondary_structure_id.py:171-195 | a segment whose estimate raises after the earlier ones succeeded makes that error the scan's result |
| SecondaryStructure.ScanSegmentsAsWritten | md_intrinsic_dimension/secondary_structure_id.py:170-196 | as written: the loop, with one shared dictionary and the md engine as written, computes `SegmentRowsAsWritten` over `ContextAsWritten` and leaves the popped dictionary behind |
| SecondaryStructure.ScanSegments | md_intrinsic_dimension/secondary_structure_id.py:170-196 | corrected: the loop with a copy of the id kwargs per segment and the corrected md engine computes `SegmentRows` |
| SecondaryStructure.LocalScanFailsAsWritten | md_intrinsic_dimension/secondary_structure_id.py:170-196 | as written, with 'local' the segment loop succeeds exactly when no segment is kept, that is, it raises at the first kept segment |
| SecondaryStructure.Prepare | md_intrinsic_dimension/secondary_structure_id.py:105-149 | specification function with no contract of its own, modelling the code as written: input, reference checks, DSSP on the reference, the label table; stated by `CheckOrder`, `ValidReference` and `BuildTable` |
| SecondaryStructure.SecondaryStructureAsWritten | md_intrinsic_dimension/secondary_structure_id.py:105-197 | as written; specification function with no contract of its own: `Prepare`, the run-length scan, then `SegmentRowsAsWritten` over `ContextAsWritten`; stated by `SecondaryStructureIdAsWritten` and `LocalFailsAsWritten` |
| SecondaryStructure.SecondaryStructureSpec | md_intrinsic_dimension/secondary_structure_id.py:105-197 | corrected; specification function with no contract of its own: `Prepare`, the run-length scan, then `SegmentRows` over `Context`; stated by `SecondaryStructureId`, `ScanTable` and `SegmentRowsMeaning` |
| SecondaryStructure.LocalFailsAsWritten | md_intrinsic_dimension/secondary_structure_id.py:17 | as written, with its default id method 'local', the function fails on every prepared input whose table has a segment of two or more residues |
| SecondaryStructure.SecondaryStructureIdAsWritten | md_intrinsic_dimension/secondary_structure_id.py:105-197 | as written: the function, with the shared dictionary and the md engine as written, computes `SecondaryStructureAsWritten`: results, table and the caller's dictionary afterwards |
| SecondaryStructure.ScanTable | md_intrinsic_dimension/secondary_structure_id.py:151-196 | the run-length scan followed by the segment loop computes `TableRows`: an IndexError for an empty table, else the records of its runs |
| SecondaryStructure.SecondaryStructureId | md_intrinsic_dimension/secondary_structure_id.py:105-197 | the corrected function computes `SecondaryStructureSpec`: the records and the label table |

## Left out

- intrinsic_dimension/section_intrinsic_dimension.py:107 puts single quotes inside a single-quoted f-string. That parses only under the f-string grammar of Python 3.12 (PEP 701) and is a SyntaxError before it; the model takes the 3.12 reading.
- intrinsic_dimension/compute_projections.py:63 is not valid Python. In the f-string of the unknown-metric error, the quotes around 'distances' and 'contacts' end the string, so importing the file is a SyntaxError, and so is importing either engine, which imports it. The model gives that line its evident meaning, a ValueError for an unknown metric (`ComputeProjections.ProjectRejectsMetric`). A file that does not compile has no behaviour to model.
- An explicit `None` (`Common.Value.VNone`) is interpreted only where the model reads a `step`; in other positions it is one more non-integer, non-string value.
- Molecule loading, trajectory reading, `os.path.isfile`, atom selection and DSSP are fields of `Common.Env`. A `None` path is not modelled: paths are strings.
- The scikit-dimension estimators and the MoleculeKit distance, dihedral and secondary-structure metrics are uninterpreted fields of `Common.Env`. Being functions, they are deterministic: the same call on the same frames gives the same result. The 101-frame minimum and the "Expected 2D array" error belong to them.
- The import machinery behind the dynamic projection name is one field, `customMetric`, keyed by module and class name.
- Logging and the `verbose` flag only change the logger level, so they are left out. This includes the warning for a skipped segment and the leftover-residue message.
- Floating point: means are exact `real` averages; NaN is the only special value.
- pandas DataFrames are sequences of records; `iloc` is sequence indexing.
- `str.lower()` is modelled on ASCII letters only.
- Python bools in integer positions (`step`, `last`) count as 0 and 1; other numeric types are not modelled.
- Every engine call gives the segment or window molecule itself as `mol`, so the model passes empty paths; `Common.LoadInput` ignores paths when a molecule is given.
- The md package's `__init__` re-exports are not modelled.
- Common.Select: states which atoms are kept, but its ensures do not state that they keep their original order. The function computes them in order, and the rest of the model uses it.
- ComputeProjections.Project: with a valid metric, its ensures says only when the result is None. The value is pinned down by ProjectDefaults and by the method ComputeProjections.
- SectionId.Windows: states only the bounds; the count and positions are in SectionId.WindowCount.
- SecondaryStructure.RunSegments: states only the number of segments; their content is in RunSegmentsMeaning.
- SecondaryStructure.ValidateReference: its ensures says a field mismatch names one of the compared keys; that it names the first one is in FieldMismatchIsFirst.
- ComputeId.GlobalShortProjection: the estimators are modelled as deterministic functions of their name, constructor arguments and frames, so fitting the same frames twice gives the same value. The lemma holds only for such estimators; an estimator that draws random numbers (a `random_state` left at None) can give two different values for `gid` and `gid100` on the same frames. The same assumption makes every estimate in the model a function of its inputs.

## Findings

| source | as written | input that shows it | evidently intended | confidence | as-written member | corrected member |
|---|---|---|---|---|---|---|
| md_intrinsic_dimension/md_intrinsic_dimension.py:160-169 | the `if id_method == 'global'` after the local branch is an `if`, so its `else` raises TypeError after every local estimate | `id_method='local'` with any estimator that succeeds | local returns `compute_local`'s triple, as the legacy engine does | not executed | MdEngine.LocalAlwaysFailsAsWritten | MdEngine.Route |
| md_intrinsic_dimension/md_intrinsic_dimension.py:126 | `projection_method in builtins.keys()` hashes its operand, and a numpy array is unhashable, so the array branch at lines 150-152 cannot be reached | `projection_method=np.zeros((200, 3))` | an array is used as the projection unchanged | not executed | MdEngine.ArrayRejectedAsWritten | MdEngine.Dispatch |
| md_intrinsic_dimension/secondary_structure_id.py:182-184 | the same `id_kwargs` object goes to every segment, and the engine pops `estimator` and `last` from it (md_intrinsic_dimension.py:103-104), so later segments use TwoNN and 100 | `id_method='global'` and `id_kwargs={'estimator': 'MLE'}` with two segments of at least two residues | every segment uses the caller's estimator and `last` | not executed | SecondaryStructure.SecondSegmentLosesSettingsAsWritten | SecondaryStructure.SegmentRowsMeaning |
| md_intrinsic_dimension/secondary_structure_id.py:17 | the default `mol_ref=Molecule` is the class, never None, so the check at lines 119-120 cannot fire for an omitted reference | `secondary_structure_id(mol=mol, projection_method='Dihedrals')` | omitting the reference is the FileNotFoundError for a missing reference | not executed | SecondaryStructure.DefaultReferenceNotMissingAsWritten | SecondaryStructure.DefaultReferenceMissing |

The corrected members are the ones the rest of the model uses:

- `MdEngine.Estimate` and the method `IntrinsicDimension`;
- `SecondaryStructure.Context`, whose segments are estimated by the corrected md engine;
- `SecondaryStructure.SegmentRows`, `SecondaryStructureSpec` and the methods `SegmentBody`, `ScanSegments` and `SecondaryStructureId`, which hand each segment its own copy of the id kwargs;
- `SecondaryStructure.DefaultReference`, a default reference of None.

The as-written members sit beside them:

- `MdEngine.EstimateAsWritten`, `RouteAsWritten`, `DispatchAsWritten` and the method `IntrinsicDimensionAsWritten`;
- `SecondaryStructure.ContextAsWritten`, whose segments are estimated by the md engine as written;
- `SecondaryStructure.SegmentRowsAsWritten`, `SecondaryStructureAsWritten` and the methods `SegmentBodyAsWritten`, `ScanSegmentsAsWritten` and `SecondaryStructureIdAsWritten`, which share one dictionary;
- `SecondaryStructure.DefaultReferenceAsWritten`, the `Molecule` class.

The first and third rows compound in `secondary_structure_id` as written. With its default id method 'local' it raises at the first kept segment (`LocalScanFailsAsWritten`, `LocalFailsAsWritten`). So the shared dictionary shows only with 'global'.
