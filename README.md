# Evaluation metrics of `utils_metrics.py`, modelled in Dafny

This project models the evaluation core of `utils_metrics.py`. The core has two parts.

- **Per-class metric kernels.**
  - `calculate_dice` takes two label volumes. For every foreground class label `1..num_classes-1`, it records the Dice overlap of the two class masks. A class that is absent from the ground truth gets NaN. The kernel then appends the NaN-ignoring mean of the per-class entries.
  - `calculate_hd_95` and `calculate_displacement` have the same shape: one entry per class label, then the NaN-ignoring mean. Their per-class values come from a surface-distance library and from a square-root magnitude. Here those values are stated through function parameters.
- **The `Eval` result accumulator.**
  - It is a class with a run table `df` (one row per sample), a summary table `avg_df`, the current epoch, the caller's class list (extended with a synthetic `Avg` class), three feature toggles and a mode tag.
  - `calculate_results` extends the caller's `info` dict with the columns `{Reg|Rigid|Seg}_{class}_{Dice|HD95|Displacement}`. It appends that dict to the run table and rewrites the run table's CSV file.
  - `average_results` builds one summary row from the run table, appends it to the summary table and rewrites the summary CSV file.

Files:

- `wrappers.dfy`: `Option`.
- `metric_kernels.dfy` (module `MetricKernels`):
  - masks and voxel counts;
  - Dice computed from counts;
  - the NaN-ignoring mean;
  - the three kernels, each as a specification function and as the loop method the source runs. Each loop method is proved equal to its specification function.
- `columns.dfy` (module `ColumnLabels`):
  - table cells (`Value`) and rows (`map<string, Value>`);
  - typed column labels (family × class name × kind), whose string form is proved injective;
  - the column-writing loops, as functions with their key and value laws.
- `decimal.dfy` (module `Decimal`): Python's `str()` of an integer, with a parser that undoes it. This is what names the per-epoch results file.
- `evaluation.dfy` (module `Evaluation`):
  - the order in which the column groups are written;
  - the row `calculate_results` builds and the row `average_results` builds, each as a function of its inputs, with lemmas about their keys and values;
  - file names;
  - the in-place objects: the caller's class list, the caller's `info` dict, and `Eval`.

How values are represented:

- NaN is `None` in kernel scores and `Value.NaN` in table cells.
- A pandas table is a `seq<Row>`. A column a row lacks reads as NaN, as `pd.concat` fills it.
- The CSV directory `sv_dir/CSVs` is a `CsvDir` object whose field `files: map<string, seq<Row>>` maps each file name to the table last written under it. Every `Eval` built on the same directory holds the same `CsvDir`, so a table one object writes is what another object's `load_avg_df` reads.

## Model

| member | source | states |
|---|---|---|
| MetricKernels.CalculateDice | utils_metrics.py:15-50 | The class-label loop returns exactly the `DiceSpec` vector. |
| MetricKernels.DiceSpec | utils_metrics.py:37-48 | There is one entry per class label `1..num_classes-1`, so `num_classes` entries for `num_classes >= 1`. Entry `c-1` is class `c`'s Dice. The last entry is the NaN-ignoring mean of the entries before it. |
| MetricKernels.ClassDiceNaN | utils_metrics.py:39-45 | A class's Dice entry is NaN if and only if the class is absent from the ground truth, whatever the prediction holds. |
| MetricKernels.ClassDiceValue | utils_metrics.py:39-43 | A class present in the ground truth gets a number in [0, 1]. It is 0 exactly when no voxel carries the class in both volumes, and in particular when the prediction has no voxel of it. It is 1 exactly when both volumes carry the class on the same voxels. |
| MetricKernels.DcBounds | utils_metrics.py:42 | Twice the shared voxel count over the sum of both voxel counts lies in [0, 1], and is 0 exactly when the masks share no voxel. |
| MetricKernels.DcOne | utils_metrics.py:42 | With a non-empty reference mask, Dice is 1 exactly when the two masks are equal. |
| MetricKernels.MaskAny | utils_metrics.py:39-41 | `np.any(gt_mask)` holds exactly when the class label occurs in the ground truth. |
| MetricKernels.DicePerfect | utils_metrics.py:37-48 | Scoring the ground truth against itself gives 1 for every class it contains and NaN for every other class. The average is 1 once any foreground class occurs. |
| MetricKernels.DiceAverage | utils_metrics.py:48 | The trailing Dice average is NaN exactly when no foreground class occurs in the ground truth. Otherwise it lies in [0, 1]. |
| MetricKernels.NanMeanIsMeanOfValid | utils_metrics.py:48 | `np.nanmean` is the plain mean of the entries left after dropping every NaN, and NaN when none are left. |
| MetricKernels.NanMeanNaN | utils_metrics.py:48 | The NaN-ignoring mean is NaN exactly when every entry is NaN. |
| MetricKernels.NanMeanBounds | utils_metrics.py:48 | If every number in the vector lies in [lo, hi], so does its NaN-ignoring mean. |
| MetricKernels.CalculateHd95 | utils_metrics.py:52-64 | The class-label loop returns exactly the `Hd95Spec` vector. |
| MetricKernels.Hd95Spec | utils_metrics.py:57-63 | There is one entry per class label. Each entry is the external HD95 of that class's ground-truth and predicted masks, with no NaN guard. The last entry is the NaN-ignoring mean. |
| MetricKernels.CalculateDisplacement | utils_metrics.py:67-82 | The class-label loop returns exactly the `DisplacementSpec` vector. |
| MetricKernels.DisplacementSpec | utils_metrics.py:74-81 | There is one entry per class label. Each entry is that class's mean displacement magnitude. The last entry is the NaN-ignoring mean. |
| MetricKernels.ClassDisplacement | utils_metrics.py:75-80 | The class entry is `np.nanmean` of the magnitudes `sqrt(a² + b² + c²)` of the vectors the prediction selects. It is NaN exactly when the prediction has no voxel of the class (the mean of an empty selection), and a number otherwise. |
| MetricKernels.GatherCount | utils_metrics.py:75-78 | The vectors selected by `np.where(pred == c)` are exactly as many as the voxels of class `c`. |
| MetricKernels.ZeroFieldDisplacement | utils_metrics.py:74-81 | For an all-zero field, and assuming only that the square root of 0 is 0: every class the prediction contains moves by exactly 0, every other class is NaN, and the trailing average is 0 when some foreground class occurs in the prediction and NaN otherwise. |
| ColumnLabels.LabelInjective | utils_metrics.py:124 | A `{Family}_{ClassName}_{Kind}` label names exactly one (family, class, kind), so two groups' columns never clash. |
| ColumnLabels.EpochIsNotALabel | utils_metrics.py:175 | `Epoch` is never a metric column. |
| ColumnLabels.PutColumnsSpec | utils_metrics.py:123-125 | One column loop adds exactly its group's columns and keeps every other entry. Class `names[i]`'s column holds the `i`-th value; when a name is listed twice, the later write wins. |
| ColumnLabels.ApplySpec | utils_metrics.py:116-161 | A sequence of column loops adds exactly their columns and keeps all other entries. Each group's column for `names[i]` holds that group's `i`-th value, provided `names[i]` is the last occurrence of that name; when a name is listed twice, the later write wins. |
| Evaluation.WriteColumns | utils_metrics.py:123-125 | The loop's result is the row `PutColumns` describes. |
| Evaluation.RegistrationColumns | utils_metrics.py:116-145 | Runs the registration and rigid kernels and writes their columns in source order: Reg Dice, Reg HD95, Reg displacement if a field is given, then Rigid Dice and Rigid HD95. |
| Evaluation.SegmentationColumns | utils_metrics.py:149-161 | Runs the segmentation kernels and writes Seg Dice and then Seg HD95. |
| Evaluation.SampleColumns | utils_metrics.py:116-161 | The row `calculate_results` leaves in `info` is `ResultRow`. |
| Evaluation.ResultRowColumns | utils_metrics.py:116-161 | The row holds every caller key plus exactly the enabled columns. Reg and Rigid Dice/HD95 appear if and only if a registration result is given. Reg displacement appears if and only if a displacement field is given too. Seg columns appear if and only if a segmentation result is given. Every caller key that is not one of those columns keeps its value. |
| Evaluation.ResultRowValue | utils_metrics.py:120-161 | The `i`-th entry of an enabled group's metric vector lands under the `i`-th class name, provided that is the name's last occurrence in the class list; when a name is listed twice, the later write wins. |
| Evaluation.AvgColumn | utils_metrics.py:120-129 | With the class list ending in `Avg` (which the constructor, at line 91, ensures), each enabled group's `Avg` column holds the NaN-ignoring mean of that group's per-class entries. |
| Evaluation.ResultsColumn | utils_metrics.py:163 | In a run table built by `calculate_results`, each cell of a metric column holds that sample's metric when the sample enables the group. Otherwise it holds the caller's own value or NaN. |
| Evaluation.SummaryColumns | utils_metrics.py:173-212 | The row `average_results` builds is `SummaryRow`. |
| Evaluation.SummaryRegistrationColumns | utils_metrics.py:178-202 | Writes the Reg Dice, Reg HD95, Rigid Dice and Rigid HD95 statistics, then Reg displacement if `calc_disp`. |
| Evaluation.SummarySegmentationColumns | utils_metrics.py:203-212 | Writes the Seg Dice and then the Seg HD95 statistics. |
| Evaluation.SummaryRowKeys | utils_metrics.py:172-212 | `Epoch` is present if and only if the mode is `train`, and then it holds the epoch. Reg and Rigid Dice/HD95 columns are present if and only if `calc_reg`. Reg displacement columns are present if and only if `calc_reg` and `calc_disp`. Seg columns are present if and only if `calc_seg`. There are no other keys. |
| Evaluation.SummaryRowValue | utils_metrics.py:178-212 | Each summary column holds the statistics of the same column of the run table. |
| Evaluation.RunFileNames | utils_metrics.py:164-167 | In `train` mode each epoch writes its own run file. In any other mode every epoch overwrites the same file. |
| Evaluation.RunFileIsNotSummaryFile | utils_metrics.py:217 | The run file is never the summary file, in any mode. |
| Decimal.ParseIntToString | utils_metrics.py:165 | `str(epoch)` can be parsed back to the epoch. |
| Decimal.IntToStringInjective | utils_metrics.py:165 | Distinct epochs print differently. |
| Evaluation.ClassList.Append | utils_metrics.py:91 | Appending a name to the list extends it by exactly that name. |
| Evaluation.Eval.constructor | utils_metrics.py:85-96 | Appends `Avg` to the caller's class list, which the object goes on sharing. Both tables start empty and the epoch starts at 0. The toggles, mode and directory are stored. |
| Evaluation.Eval.UpdateEpoch | utils_metrics.py:101-103 | The epoch becomes the argument and the run table becomes empty. |
| Evaluation.Eval.LoadAvgDf | utils_metrics.py:105-109 | If `trainMean_Results.csv` exists in the shared directory at the time of the call, the summary table becomes that file's table. Otherwise the table is unchanged and `found` is false; this is where the source prints its diagnostic. |
| Evaluation.Eval.CalculateResults | utils_metrics.py:111-170 | The caller's `info` becomes `ResultRow` of its old contents, and that same object is returned. The run table grows by exactly that row. The run file named by `RunFileName` now holds the whole run table. The epoch is unchanged. |
| Evaluation.Eval.AverageResults | utils_metrics.py:172-219 | The returned row is `SummaryRow` of the run table. The summary table grows by exactly that row. The file `{mode}Mean_Results.csv` now holds the whole summary table. The run file is untouched. The run table and the epoch are unchanged. |
| Evaluation.SharedSummary | utils_metrics.py:105-107 | A test-mode `Eval` on the same directory as a train-mode `Eval` finds, through `load_avg_df`, the summary table the train-mode object wrote with `average_results`. |

## Left out

- The HD95 geometry (`compute_surface_distances`, `compute_robust_hausdorff`) is a foreign library. Its value is the function parameter `hd95`, so the model says nothing about infinities or the distances themselves.
- medpy's `binary.dc` is replaced by its count formula `2|A∩B|/(|A|+|B|)`, which is 0 when both masks are empty. The library is not modelled.
- `np.sqrt` is the function parameter `sqrt`. The squares, their sum, the per-class selection and the NaN-ignoring mean over the selected voxels are modelled.
- MetricKernels.ZeroFieldDisplacement: because `sqrt` is a parameter, the lemma assumes `sqrt(0.0) == 0.0` rather than proving it.
- Floating point: metric values are exact reals. Rounding, overflow and NaN arithmetic beyond the NaN-ignoring mean are not modelled.
- The "mean ± std" strings of `average_results` (`round`, pandas `mean`/`std`, string formatting) are the opaque cell `MeanStd(column)`, which carries the column it summarises.
- Torch and NumPy conversions (`.float().cpu().numpy()`, `np.reshape`, `np.squeeze`) are left out. Volumes are flat `seq<int>` and fields are `seq<Vec3>`.
- MetricKernels.CalculateDice: requires a ground truth and a prediction of equal length. The source also accepts unequal lengths when no class label occurs in the ground truth, because the masks are then never compared. The model does not cover those inputs.
- MetricKernels.CalculateDisplacement: requires a field exactly as long as the prediction. The source also indexes a larger field without error. The model does not cover those inputs.
- Evaluation.Eval.CalculateResults: requires volumes (and a displacement field) of one extent, through `Sample.WellShaped`. Where the source would not fail on other extents (the two cases above), the model does not cover them.
- `Evaluation.Eval.CalculateResults`: a registration result given without a rigid mask makes the source raise. The model excludes that case with a precondition instead of modelling the exception.
- `Evaluation.Eval.AverageResults`: a summarised column missing from the run table makes pandas raise `KeyError`. The model excludes that case with a precondition instead of modelling the exception.
- The `None` checks of `calculate_results` compare tensors with `!= None`. The model reads them as "argument given".
- `os.makedirs`, `to_csv` and `read_csv` are not modelled as I/O. A write is an update of the shared `CsvDir.files` map, and a read is a lookup in it.
- Column order in the CSV files and key order in dicts are not modelled. Rows are maps.
- `load_avg_df` reads `trainMean_Results.csv` whatever the mode, and the model follows the code in this.
- The printed diagnostic of `load_avg_df` is the returned flag `found`.
- Default argument values (`calc_reg=True`, `mode='train'` and so on) are not modelled. Every argument is explicit.
- The commented-out `One_Hot` and `DiceLoss_test` code after line 220 is dead code and is not modelled.
