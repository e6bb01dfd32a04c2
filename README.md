# Analytics backend core, modelled in Dafny

The system is a FastAPI backend for a small analytics dashboard. A user
uploads a CSV or Excel sheet. The server reads it into one in-memory pandas
DataFrame, adds derived business metrics (margins, rates, ROI and so on),
and cleans away infinities and missing values. The dashboard then asks for
a summary (total sales, profit statistics, column kinds) and for charts of
single columns. Signed-in users also spend "graph credits" kept in a
`users` table.

This project models that core:

- `pandas.dfy` (module `Pandas`): the slice of pandas the core relies on.
  - Cells are `Num` (a finite real, +inf, -inf or NaN). Object cells are
    strings or floats, and dates are nanosecond timestamps.
  - A table is a row count plus named columns in insertion order.
    `df[n]` is `Find`, and `df[n] = c` is `Assign` / `DataFrame.SetItem`.
  - Division, subtraction and `* 100` follow IEEE rules on infinities and
    NaN.
  - The cleanup steps are `replace([inf, -inf], 0)` and `fillna(0)`.
  - `read_csv`, `read_excel`, `to_datetime`, `strftime` and `to_numeric`
    are foreign calls. They arrive as a `Library` parameter.
- `file_handler.dfy` (module `FileHandler`): `calculate_all_metrics`,
  `save_file` and `get_dataframe`.
  - The eleven `if` blocks of `calculate_all_metrics` are a constant table
    `MetricBlocks`. Each block has a guard (the columns it needs) and the
    assignments it makes.
  - `Derive` is the specification. The method `CalculateAllMetrics` runs
    the blocks one after another on a `DataFrame` object and is proved
    equal to it.
  - The global `DATAFRAME` is the field of a `DatasetStore` object.
    `SaveFile` is proved against the function `Ingest`.
- `derivation.dfy` (module `Derivation`): generic facts about running
  guarded blocks of column assignments:
  - which names the table ends with;
  - which columns stay untouched;
  - that each assigned column equals its formula over the final table,
    when blocks only read columns that are settled.
- `metric_properties.dfy` (module `MetricProperties`): these facts
  specialised to the eleven metric blocks, down to single cells. For
  example:
  - a ratio with a zero, missing or infinite operand ends as 0;
  - churn is 100 minus retention;
  - a non-numeric source column makes the upload fail.
- `upload.dfy` (module `Upload`): the `/upload` handler.
- `summary.dfy` (module `Summary`): `/api/summary` (`get_summary`).
- `chart.dfy` (module `Chart`): the live `/chart` handler, with
  `value_counts` modelled as a tally sorted by decreasing count.
- `credits.dfy` (module `Credits`): `/use-credit`. The `users` table is a
  map from email to the `graph_credits` field, updated in place by
  `UsersTable.UseCredit`.

Where the code's behaviour may surprise a reader, the model follows the
code:

- A file that fails to parse, or whose metrics fail, sets the dataset to
  `None`: the previous dataset is discarded (file_handler.py:89-90). Only
  an unsupported file name leaves the previous dataset in place.
- A successful upload replaces the dataset whatever was loaded before.
- The summary carries no row or column counts.
- When `Profit` exists but has no numeric cell, `mean`, `max` and `min`
  are NaN. Rendering the JSON response then raises inside the `try`, so
  the reply is the 500.
- Churn is computed from the retention column before the cleanup. Where
  `Customers` is 0, retention is NaN or infinite, and churn is too. The
  cleanup then turns both into 0, so churn is not 100 there. Where
  `Customers` is infinite, retention is 0 and churn is 100.
- Metric arithmetic on a text column holding a string, or on a date
  column, raises. `save_file` catches the error, so the upload is refused
  and the dataset is cleared.
- In `use_credit`, `.get('graph_credits', 0)` never yields its default. A
  record without the field is an empty dict, which is falsy, so the 404
  is raised. The enclosing `except` turns that 404 into the generic 500.
  A caller without an email is looked up under the text `"None"`.
- The chart handler returns plain Python lists, which FastAPI renders as
  strict JSON. A numeric metric column holding an infinity, or a
  value-count label that is an infinite float, cannot be rendered, so the
  reply is a 500. On a dataset saved by `save_file` this never happens,
  because the cleanup removed every infinity.

## Model

| member | source | states |
|---|---|---|
| Pandas.Div | app/services/file_handler.py:27-54 | a finite number over a nonzero finite one is their real quotient; a zero divisor never gives a finite result; a finite number over an infinity is 0; NaN in gives NaN out |
| Pandas.Sub | app/services/file_handler.py:29-48 | finite operands give their real difference; a finite number minus an infinity is the opposite infinity; an infinity minus itself is NaN; NaN in gives NaN out |
| Pandas.Percent | app/services/file_handler.py:27-54 | multiplying by 100 scales a finite number and leaves infinities and NaN as they are |
| Pandas.EmptyMeansNoCells | app/main.py:52 | `df.empty` holds exactly when no column of the table has a cell |
| Pandas.Find | app/services/file_handler.py:19 | `n in df.columns` holds exactly when `df[n]` yields a column, and that column is the one stored under `n` |
| Pandas.FindAssigned | app/services/file_handler.py:27 | after `df[n] = c`, reading `n` gives `c` and every other name reads as before |
| Pandas.AssignKeepsValid | app/services/file_handler.py:27 | assigning a column of the right length keeps names unique and every column `rows` long |
| Pandas.DataFrame.SetItem | app/services/file_handler.py:27 | the frame afterwards is the old one with `n` replaced, or appended at the end if new; it stays well formed |
| Pandas.DataFrame.ReplaceInfinities | app/services/file_handler.py:57 | in place, every infinite numeric or float-object cell becomes 0 and nothing else changes |
| Pandas.DataFrame.FillMissing | app/services/file_handler.py:58 | in place, every NaN cell becomes 0 and nothing else changes |
| Pandas.Floats | app/services/file_handler.py:26-54 | arithmetic on a column succeeds exactly when it is numeric or an object column of floats only; then it has one value per row |
| Pandas.ToDatetime | app/services/file_handler.py:21 | a parsed column keeps its length, and a date column parses to itself |
| FileHandler.Lookup | app/services/file_handler.py:26-54 | reading a column succeeds exactly when it is present and yields a column `rows` long |
| FileHandler.Evaluate | app/services/file_handler.py:26-54 | a metric formula yields one cell per row, and a numeric column for every formula except a plain copy |
| FileHandler.EvalBlocks | app/services/file_handler.py:25-54 | the guarded blocks, when they succeed, leave a well-formed table with the same rows |
| FileHandler.RunBlock | app/services/file_handler.py:26-54 | one `if` block run in place on the frame has the outcome of the block's specification, and the frame holds the result |
| FileHandler.ParseDateColumn | app/services/file_handler.py:18-23 | `Date` is replaced by its parsed form when `to_datetime` succeeds; otherwise the frame is unchanged |
| FileHandler.Derive | app/services/file_handler.py:11-61 | a successful derivation is a well-formed table with the uploaded row count |
| FileHandler.CalculateAllMetrics | app/services/file_handler.py:11-61 | the method's in-place run of the date step, the eleven blocks and the cleanup gives exactly `Derive` of the uploaded table, and the frame holds it |
| FileHandler.CleanupCleans | app/services/file_handler.py:56-58 | after `replace` and `fillna` no numeric or float cell is infinite or missing |
| FileHandler.DeriveIsClean | app/services/file_handler.py:11-61 | every derived dataset is free of infinities and NaN |
| FileHandler.Reader | app/services/file_handler.py:74-79 | a reader exists exactly for `.csv`, `.xls` and `.xlsx` names; `.csv` is read as CSV and the others as Excel |
| FileHandler.Ingest | app/services/file_handler.py:63-91 | an unsupported name is reported as unsupported and keeps the slot; for a supported name, either the upload is reported with its name and byte size and the slot holds a well-formed, clean table, or it is refused and the slot is emptied |
| FileHandler.DatasetStore.constructor | app/services/file_handler.py:9 | the store starts with no dataset |
| FileHandler.DatasetStore.GetDataframe | app/services/file_handler.py:93-97 | a loaded dataset is well formed and clean |
| FileHandler.DatasetStore.SaveFile | app/services/file_handler.py:63-91 | the report and the new slot are those of `Ingest`, and the store invariant (a loaded dataset is well formed and clean) is kept |
| Derivation.NamesAfterAssignments | app/services/file_handler.py:26-54 | assignments keep the existing column order and append each new target once, in order |
| Derivation.AssignmentsFrame | app/services/file_handler.py:26-54 | a column no assignment targets is left as it was |
| Derivation.EvaluateLocal | app/services/file_handler.py:26-54 | a formula's value depends only on the columns it reads |
| Derivation.AssignmentsFixpoint | app/services/file_handler.py:32-34 | in a block whose later steps never overwrite what earlier ones read, each target ends equal to its formula over the final table |
| Derivation.FiredMembers | app/services/file_handler.py:25-54 | a name is added by the blocks exactly when some block targeting it has all its guard columns |
| Derivation.BlocksFrame | app/services/file_handler.py:25-54 | a column no block targets is untouched by the whole chain |
| Derivation.NamesAfterBlocks | app/services/file_handler.py:25-54 | the chain keeps the uploaded column order and appends the targets of the blocks that fired |
| Derivation.BlocksFixpoint | app/services/file_handler.py:25-54 | in a well-formed chain, every target of a block that fired equals its formula over the final table |
| MetricProperties.MetricBlocksWellFormed | app/services/file_handler.py:25-54 | no block writes a guard column, no target is written twice, and no block reads a column that a later block overwrites |
| MetricProperties.DateUntouched | app/services/file_handler.py:18-54 | no metric block reads `Date` as a guard or writes it |
| MetricProperties.DerivedNames | app/services/file_handler.py:11-61 | the derived table has the uploaded columns in their order, then the metrics that fired, in source order |
| MetricProperties.GatedByGuard | app/services/file_handler.py:25-54 | a metric column is present afterwards exactly when it was uploaded or its block's required columns are all present |
| MetricProperties.UntouchedColumns | app/services/file_handler.py:11-61 | an uploaded column that is neither a metric nor `Date` comes back only cleaned; an absent one stays absent |
| MetricProperties.DateColumn | app/services/file_handler.py:18-23 | `Date` comes back parsed when `to_datetime` accepts it; otherwise it comes back as uploaded, cleaned |
| MetricProperties.MetricValue | app/services/file_handler.py:25-58 | every fired metric other than churn equals its formula over the uploaded columns, cleaned |
| MetricProperties.RatioCell | app/services/file_handler.py:26-58 | each cell of a ratio metric is the finite quotient (times 100 for a percentage), and 0 when an operand is missing or infinite or the divisor is 0 |
| MetricProperties.ChurnCell | app/services/file_handler.py:32-34 | each churn cell is 100 minus the retention rate when that rate is finite; it is 100 for an infinite customer count and 0 otherwise |
| MetricProperties.ChurnComplementsRetention | app/services/file_handler.py:32-34 | with finite counts and nonzero customers, retention plus churn is 100; with zero customers both are 0 |
| MetricProperties.CopiesMatchSource | app/services/file_handler.py:43-46 | `CLV` and `CAC` end identical to the derived columns they copy |
| MetricProperties.FailsOnNonNumeric | app/services/file_handler.py:26-54 | a fired metric that does arithmetic on a non-numeric column makes the derivation fail |
| MetricProperties.DeriveSucceeds | app/services/file_handler.py:11-61 | when every column a fired metric does arithmetic on is numeric (or floats only), the derivation succeeds |
| MetricProperties.DeriveSucceedsIff | app/services/file_handler.py:11-61 | the derivation succeeds exactly when every column a fired metric does arithmetic on is numeric (or floats only) |
| MetricProperties.UnsupportedKeepsSlot | app/services/file_handler.py:74-79 | an unsupported file name is reported as such and the loaded dataset stays |
| MetricProperties.SupportedReplacesSlot | app/services/file_handler.py:73-91 | for a supported name the outcome ignores what was loaded before; success happens exactly when reading and deriving both succeed, and then reports the name and byte size and stores the derived table; failure clears the dataset |
| Upload.RespondMirrorsSave | app/api/upload.py:23-34 | the response is a success exactly when `save_file` succeeded, echoing its name and size; every failure is the same 400 |
| Upload.Respond | app/api/upload.py:23-34 | the reply is a success exactly when `save_file` reported one, and every rejection is a 400 |
| Upload.UploadFile | app/api/upload.py:10-34 | no file is a 400 that leaves the store alone; otherwise the store changes as `save_file` specifies and the response mirrors its report |
| Upload.UploadOutcome | app/api/upload.py:21-34 | a successful upload reports the file's name and byte count and leaves a dataset loaded; any rejection is a 400 |
| Summary.Select | app/main.py:56 | a name is listed exactly when some column of that name has the selected kind |
| Summary.SelectInOrder | app/main.py:56-61 | the listed names appear in the table's column order |
| Summary.CategoricalColumns | app/main.py:58-61 | the loop lists exactly the object columns with fewer than 50 distinct values, in column order |
| Summary.Observed | app/main.py:62-65 | the coerced values that `sum`, `mean`, `max` and `min` see are exactly the non-NaN ones, each as many times as it occurs |
| Summary.Coerce | app/main.py:62-65 | `to_numeric(errors='coerce')` keeps one value per cell: numbers pass through, float cells of an object column keep their value, and dates become finite numbers |
| Summary.Total | app/main.py:62 | the sum is 0 when nothing is observed and finite when no cell is infinite |
| Summary.Mean | app/main.py:63 | the mean is NaN when nothing is observed, and finite when something is and no cell is infinite |
| Summary.Max | app/main.py:64 | the maximum is NaN when nothing is observed; otherwise it is a non-missing cell that no non-missing cell exceeds |
| Summary.Min | app/main.py:65 | the minimum is NaN when nothing is observed; otherwise it is a non-missing cell that exceeds no non-missing cell |
| Summary.Summarize | app/main.py:46-76 | every failure is the 404 or a 500, and a summary is produced only for a loaded, non-empty dataset |
| Summary.Greatest | app/main.py:64 | the maximum is one of the values and no value is above it |
| Summary.Least | app/main.py:65 | the minimum is one of the values and no value is below it |
| Summary.GetSummary | app/main.py:46-76 | the response is the summary of what `get_dataframe` returns |
| Summary.NotFoundIffNoData | app/main.py:51-53 | the 404 comes exactly when there is no dataset or it is empty |
| Summary.AbsentColumnsReportZero | app/main.py:62-65 | without `Sales` the total is 0; without `Profit` the average, maximum and minimum are 0 |
| Summary.AbsentColumnsNeverFail | app/main.py:62-76 | a non-empty dataset with neither `Sales` nor `Profit` always gets a summary, with all four figures 0 |
| Summary.AbsentSalesNeverFails | app/main.py:62-76 | without `Sales`, a non-empty dataset gets a summary exactly when the `Profit` mean, maximum and minimum are finite |
| Summary.ClassesDisjoint | app/main.py:56-61 | no column is listed both as numeric and as categorical |
| Summary.DatesInNeither | app/main.py:56-61 | a date column is listed neither as numeric nor as categorical |
| Summary.MeanBetween | app/main.py:63-65 | over values with no infinities, the mean lies between the minimum and the maximum |
| Summary.ProfitOrdered | app/main.py:62-76 | in every successful summary, `min_profit <= avg_profit <= max_profit` |
| Chart.HandleChart | app/api/chart.py:62-94 | every failure is a 400 or the rendering 500; a series has only finite values; a histogram has one count per label and no infinite label |
| Chart.AxisLabels | app/api/chart.py:77-80 | without a `Date` column the labels always exist, one per row; only date parsing can fail |
| Chart.ValueCounts | app/api/chart.py:86-88 | one count per label, and the labels are exactly the non-missing values of the column |
| Chart.NoDatasetIs400 | app/api/chart.py:64-66 | no dataset is a 400 |
| Chart.UnknownMetricIs400 | app/api/chart.py:70-71 | the not-found 400 comes exactly when the metric is not a column |
| Chart.KindIgnored | app/api/chart.py:58-94 | the requested chart type never changes the response |
| Chart.AxisShape | app/api/chart.py:76-80 | the x-axis has one label per row: the formatted dates when there is a `Date` column, otherwise 1 to n |
| Chart.SeriesShape | app/api/chart.py:76-82 | a numeric metric gives one label and one value per row, with NaN values shown as 0 |
| Chart.NonNumericIsHistogram | app/api/chart.py:84-94 | a non-numeric metric gives value counts exactly when no cell is an infinite float, and the rendering 500 otherwise |
| Chart.RenderableCounts | app/api/chart.py:86-94 | an infinite float appears among the value-count labels exactly when it appears in the column |
| Chart.CleanNumericIsSeries | app/api/chart.py:76-94 | on a cleaned dataset a numeric metric always gives a series once the labels exist |
| Chart.Tally | app/api/chart.py:86 | the tallied labels are distinct and are exactly the non-missing values of the column |
| Chart.SortByCount | app/api/chart.py:86 | sorting by count keeps the same labels and orders them by non-increasing count |
| Chart.ValueCountsShape | app/api/chart.py:85-88 | the labels are the distinct present values; each count is that value's positive number of occurrences; the counts do not increase |
| Chart.CountsAddUp | app/api/chart.py:86-88 | the counts add up to the number of non-missing cells |
| Chart.HistogramCoversRows | app/api/chart.py:85-94 | on a cleaned dataset a non-numeric metric always gives a histogram, and its counts add up to the row count |
| Credits.SpendCredit | app/api/credits.py:35-63 | no row appears or vanishes, a failure writes nothing, and a reported balance is never negative |
| Credits.UsersTable.UseCredit | app/api/credits.py:35-63 | the response and the new table are those of `SpendCredit` |
| Credits.AnonymousIs401 | app/api/credits.py:41-42 | an unauthenticated call is a 401 and writes nothing |
| Credits.FailureWritesNothing | app/api/credits.py:41-63 | every failure leaves the table unchanged; apart from the 401 it is the generic 500 |
| Credits.UnusableProfileIs500 | app/api/credits.py:46-52 | no matching row, a record without the field, or a NULL balance gives the 500 |
| Credits.SpendsExactlyOne | app/api/credits.py:54-59 | a positive balance drops by exactly one and the new balance is reported; otherwise nothing is written and 0 is reported |
| Credits.OthersUntouched | app/api/credits.py:56 | only the caller's row can change, and no row appears or vanishes |
| Credits.StaysNonNegative | app/api/credits.py:54-59 | no balance is driven below zero |
| Credits.RepeatedSpending | app/api/credits.py:54-59 | k calls on a balance n >= 0 leave max(0, n - k) |

## Left out

- File reading and parsing: `read_csv`, `read_excel`, `to_datetime`, `strftime` and `to_numeric` are parameters (`Library`). Only their shape is assumed: readers give well-formed tables, and parsed dates keep their length.
- The `await file.read()` I/O, the `print` logging and the `uploads_files` directory creation are not modelled.
- FastAPI routing, the page routes, `dashboard.py`, `auth.py`, `summary.py`, `column.py`, the Razorpay webhook, the commented-out chart handler and the credits router registration are not part of this model.
- `get_current_user` and the Supabase client are not modelled. The session is a parameter, and the `users` table is a map from email to the field.
- credits.py:12 imports the `supabase` package under the name used at credits.py:47, not a client. As written, `supabase.table` raises `AttributeError` inside the `try`, and every signed-in call gets the 500. The model follows the evidently intended client call, so the lookup, the spend and the 404/500 paths are modelled as they would run with a real client.
- pandas dtypes after arithmetic: an object column holding only floats is treated as numeric once a metric is computed from it. pandas would keep the object dtype, so the chart would show value counts for it. Python's `ZeroDivisionError` on such an object column divided by a float 0 is not modelled either; the model follows the float64 semantics (infinity or NaN).
- Concurrency: two requests that touch the global dataset at once are not modelled.
- Floating point: cells are exact reals with IEEE-style infinities and NaN. Rounding, signed zero and the float conversions of large sums are not modelled.
- pandas details not modelled: NaT, time of day in parsed dates, bool and category dtypes, and mixed object columns other than string/float.
- A `None` filename, which would raise inside `save_file`'s `try`, is not modelled. The filename is always a string.
- `if not file` is modelled as an absent file (an `Option`).
- The histogram orders ties by first occurrence. pandas does not fix that order, and no property depends on it.
- MetricProperties.MetricValue: the churn column is covered by ChurnCell instead, because it reads the retention column written in the same block.
- Summary.MeanBetween: stated only for values without infinities. With an infinity the mean is not finite, and the summary is then the 500 (ProfitOrdered covers every successful summary).
