# Optimization backend of metatrader-mcp, modelled in Dafny

This project models the optimization backend `src/mt5_flask_api.py`: a small
Flask service that accepts strategy-optimization jobs, runs a simulated
strategy-tester grid search for each job in a worker thread, and serves the
job's status, its results and saved reports.

Two pieces are modelled.

- **The simulated grid search** of `run_mt5_optimization` (module `Grid`,
  `grid.dfy`). Python's `range(start, stop, step)` is modelled exactly, with
  negative steps and the `ValueError` of a zero step. The two nested `for`
  loops become the method `SimulateResults` with two nested `while` loops,
  proved equal to the recursive reference definition `Simulate` (built on
  `Range`, `RowsFor` and `GridRows`). Each row is `Row(takeProfit, stopLoss, profit)` with
  `profit = 2 * tp - sl`. The best row (`sort_values("Profit",
  ascending=False).iloc[0]`) is the recursive function `BestRow`. The lemmas
  state the length, order, membership and per-entry values of the result
  list, and where its unique best row lies.
- **The job table** `optimizations` (module `Jobs`, `jobs.dfy`): the class
  `OptimizationTable` holds a `map<string, Job>`, where a `Job` is `Running`
  or `Completed` with its results and best row. `Optimize` inserts a running
  job under a fresh id and `RunOptimization` is the worker's run. The status,
  results and save handlers are functions that read the table; being
  functions, they cannot change it. `SaveResults` models the guard of
  `save_results` and which report paths it writes (module `Paths`,
  `paths.dfy`, models `os.path.join` and the `{ea_name}_tuning.{ext}` names).

The request parameters that the worker reads are `Params(takeProfit,
stopLoss)`, where each axis is `Option<Axis(min, max, step)>`. `None` stands
for a missing key or a non-integer value, and reading it raises (`KeyError`
or `TypeError`); a zero step is `Some` with step 0 and raises `ZeroStep`. The
source reads the StopLoss axis, and builds its range, only inside the outer
loop. So when the TakeProfit range is empty, a missing or zero-step StopLoss
axis is never noticed: the run fails on the empty result list instead
(`EmptyTakeProfitIgnoresStopLoss`).

An empty result list does not get as far as `.iloc[0]`. A DataFrame built
from no rows has no `Profit` column, so `sort_values("Profit")` already
raises. The model does not separate the two exceptions: both are
`Err(EmptyResults)`. When the worker raises, the thread dies before it writes
the table, so the job stays `"running"` for good (`RunOptimization`,
`OptimizeAndRun`).

With a negative step, `range(min, max + 1, step)` counts down from `min`.
It stops before reaching `max + 1`, not `max`. The model keeps this, and the
"between min and max" lemmas (`AxisMembership`, `PositiveAxisExtremes`,
`BestOfPositiveGrid`, `SimulateSorted`) are stated for positive steps.

Replaced by parameters: the uuid drawn by `optimize` is the caller-supplied
`freshId`, required to be absent from the table. The worker thread is the
separate call `RunOptimization`, or `OptimizeAndRun` when it runs to the end
before the next request.

## Model

| member | source | states |
|---|---|---|
| Grid.Profit | src/mt5_flask_api.py:27 | the dummy objective `tp * 2 - sl` of one grid point |
| Grid.Range | src/mt5_flask_api.py:25-26 | Python's `range(start, stop, step)` for a non-zero step: empty exactly when `start` is already at or past `stop` in the step's direction, and otherwise starting at `start` |
| Grid.RangeLengthMatches | src/mt5_flask_api.py:25-26 | `range(start, stop, step)` yields exactly Python's count: ⌈(stop − start)/step⌉ values when that is positive, else none, for either sign of the step |
| Grid.RangeAt | src/mt5_flask_api.py:25-26 | the k-th value of a range is `start + k * step` |
| Grid.RangeMembership | src/mt5_flask_api.py:25-26 | x is produced by a range exactly when it lies between start (inclusive) and stop (exclusive) in the step's direction and `x − start` is a multiple of the step |
| Grid.RangeIncreasing | src/mt5_flask_api.py:25-26 | with a positive step a range is strictly increasing |
| Grid.RangeLast | src/mt5_flask_api.py:25-26 | with a positive step and start < stop, the last value is below stop and the next step would reach stop |
| Grid.Values | src/mt5_flask_api.py:25-26 | an axis runs through `range(min, max + 1, step)`: with a positive step and `min <= max`, `max` is a value exactly when `max ≡ min (mod step)` (`AxisMembership`); with `min > max` and a positive step there is no value (`ValuesStart`); with a negative step `max` is never a value (`NegativeAxisSkipsMax`) |
| Grid.NegativeAxisSkipsMax | src/mt5_flask_api.py:25-26 | with a negative step, `range(min, max + 1, step)` stops above `max + 1`, so neither `max` nor `max + 1` is among the values |
| Grid.ValuesStart | src/mt5_flask_api.py:25-26 | an axis with a positive step yields a value exactly when `min <= max`, one with a negative step exactly when `min > max + 1`; the first value is `min` |
| Grid.AxisMembership | src/mt5_flask_api.py:25-26 | with a positive step an axis runs through exactly the values `min ≤ x ≤ max` with `x ≡ min (mod step)` |
| Grid.PositiveAxisExtremes | src/mt5_flask_api.py:25-26 | with a positive step and min ≤ max, the axis starts at its smallest value `min` and ends at its largest, `min + (n − 1) * step`, which is ≤ max and within one step of max |
| Grid.Simulate | src/mt5_flask_api.py:24-34 | the reference result list of the two loops: it never fails on an empty list; a result means the TakeProfit axis was read with a non-zero step, and a non-empty result means the StopLoss axis was too |
| Grid.SimulateResults | src/mt5_flask_api.py:24-34 | the two nested loops return the reference result list `Simulate(p)`: one row `(tp, sl, 2*tp − sl)` per pair, TakeProfit-major, each axis in range order; a missing TakeProfit axis or a zero TakeProfit step raises before any row is built, and a missing StopLoss axis or a zero StopLoss step raises only when the TakeProfit range is non-empty |
| Grid.RowsForAt | src/mt5_flask_api.py:26-34 | the inner loop yields one row per StopLoss value and the j-th row pairs tp with the j-th StopLoss value |
| Grid.RowsForMembership | src/mt5_flask_api.py:26-34 | a row is produced by the inner loop exactly when it carries tp, a StopLoss value of the range and profit `2*tp − sl` |
| Grid.GridRowsLength | src/mt5_flask_api.py:25-34 | the grid has |tps| × |sls| rows |
| Grid.GridRowAt | src/mt5_flask_api.py:25-34 | the grid is TakeProfit-major: row `k = i*|sls| + j` lies inside the grid and pairs the i-th TakeProfit value with the j-th StopLoss value |
| Grid.GridMembership | src/mt5_flask_api.py:25-34 | the grid holds a row exactly when its TakeProfit and StopLoss come from the two ranges and its profit is `2*tp − sl`; nothing else appears |
| Grid.GridRowsSorted | src/mt5_flask_api.py:25-34 | increasing axes give rows in strictly increasing (TakeProfit, StopLoss) order |
| Grid.SimulateLength | src/mt5_flask_api.py:25-34 | when both axes can be read, the result list has |tp range| × |sl range| rows, by Python's length formula |
| Grid.SimulateRowAt | src/mt5_flask_api.py:25-34 | row `i*n + j` of the results is `(tp.min + i*tp.step, sl.min + j*sl.step, profit)`: TakeProfit-major, each axis in range order |
| Grid.SimulateMembership | src/mt5_flask_api.py:25-34 | a row is in the results exactly when its TakeProfit and StopLoss are in their ranges and its profit is `2*tp − sl` |
| Grid.SimulateSorted | src/mt5_flask_api.py:25-34 | with positive steps the results are in strictly increasing (TakeProfit, StopLoss) order |
| Grid.BestRow | src/mt5_flask_api.py:35-36 | the best row is a row of the list with the greatest profit; an empty list raises |
| Grid.Optimization | src/mt5_flask_api.py:24-36 | what the worker computes before its table write: it succeeds exactly when the loops give a non-empty list, and then holds that list and a row of it whose profit no row exceeds; a loop result with no rows ends in the empty-list failure |
| Grid.GridMaximal | src/mt5_flask_api.py:27-36 | a grid row has the greatest profit exactly when it pairs the largest TakeProfit with the smallest StopLoss |
| Grid.MaximalRowIsUnique | src/mt5_flask_api.py:35-36 | two rows of greatest profit are the same row, so the unstable sort cannot pick a different best row |
| Grid.BestOfPositiveGrid | src/mt5_flask_api.py:25-36 | with positive steps and non-empty ranges the best row has the last TakeProfit value `tp.min + (n − 1)*tp.step` (≤ tp.max, within one step of it), StopLoss `sl.min` and profit `2*tp − sl.min` |
| Grid.OptimizationSucceedsIff | src/mt5_flask_api.py:25-42 | the worker reaches its table write exactly when both axes are present, both steps are non-zero and both ranges are non-empty |
| Grid.EmptyTakeProfitIgnoresStopLoss | src/mt5_flask_api.py:25-36 | an empty TakeProfit range fails on the empty result list whatever the StopLoss entry holds |
| Paths.Join | src/mt5_flask_api.py:79 | `os.path.join(a, b)` ends with b; an absolute b replaces a; otherwise the result is `a + b` when a is empty or ends in a separator, and `a + "/" + b` when it does not |
| Paths.TuningName | src/mt5_flask_api.py:79-122 | a report's file name `f"{ea_name}_tuning.{ext}"` starts with the EA name and ends with `_tuning.` and the extension, with nothing else in between |
| Paths.TuningPath | src/mt5_flask_api.py:79-88 | a report path ends with `{ea_name}_tuning.{ext}`; it is `RESULTS_DIR + "/" +` that name unless the name is absolute |
| Paths.TuningPathsDistinct | src/mt5_flask_api.py:79-123 | the markdown, HTML, CSV and JSON reports of one EA have four different paths |
| Jobs.EaName | src/mt5_flask_api.py:72 | the EA name is the request's `ea_name`, or `"EA"` when absent |
| Jobs.Job.Status | src/mt5_flask_api.py:37-48 | the `"status"` field is `"running"` or `"completed"`, and `"completed"` exactly for a job whose worker has written its results |
| Jobs.ExtraReports | src/mt5_flask_api.py:118-123 | an extra CSV report is written exactly when format is "csv", an extra JSON report exactly when it is "json"; never both, and none for any other value |
| Jobs.Reports | src/mt5_flask_api.py:79-123 | the report list is the markdown path then the HTML path, plus one more path exactly when format is "csv" or "json" (that CSV or JSON path); no path appears twice |
| Jobs.OptimizationTable.constructor | src/mt5_flask_api.py:11 | the table starts empty |
| Jobs.OptimizationTable.Optimize | src/mt5_flask_api.py:45-51 | adds exactly one running entry with the given params under the fresh id and replies with that id; every other id's status is unchanged |
| Jobs.OptimizationTable.Complete | src/mt5_flask_api.py:37-42 | overwrites only that id's entry with a completed one holding params, results and best; the results handler then returns exactly them |
| Jobs.OptimizationTable.RunOptimization | src/mt5_flask_api.py:16-42 | returns what the simulation yields; on success only that id's entry becomes completed with the rows and the best row, and on any exception the table is unchanged |
| Jobs.OptimizationTable.OptimizeAndRun | src/mt5_flask_api.py:45-51 | after a job's worker has run, its status is "completed" and its results are served when the simulation succeeds; otherwise it stays "running" and results are "not ready"; other entries are unchanged |
| Jobs.OptimizationTable.OptimizationStatus | src/mt5_flask_api.py:54-57 | 404 with "not_found" exactly for an absent id; otherwise 200 with the stored status |
| Jobs.OptimizationTable.Ready | src/mt5_flask_api.py:61-73 | the guard shared by the results and save handlers: the id is in the table and its entry is a completed job |
| Jobs.OptimizationTable.OptimizationResults | src/mt5_flask_api.py:60-66 | 400 "not ready" exactly when the id is absent or not completed; otherwise 200 with exactly the stored results and best row |
| Jobs.OptimizationTable.SaveResults | src/mt5_flask_api.py:69-128 | a request without an id raises (500); one for an absent or unfinished job gets 400 "not ready" and writes nothing; otherwise it writes the markdown then the HTML report, writing exactly the paths `Jobs.Reports` lists, and replies with the two report paths |

## Left out

- Flask routing, `request.json` parsing and `jsonify`: a response is the datatype `Response(code, body)`, and a request body is the datatype of the fields a handler reads. Flask's 500 reply to an uncaught exception is the body `InternalServerError`.
- Threading and `time.sleep`: the worker's run is the separate sequential call `RunOptimization`. Races on the shared dictionary are not modelled.
- `uuid.uuid4()`: replaced by a caller-supplied id that is not yet in the table.
- The floating-point `Drawdown = sl * 0.1` column is not modelled, and neither is the `OverflowError` that the float conversion raises for a StopLoss value of magnitude 2**1024 or more: there the worker dies and the job stays "running", while the model's unbounded integers complete it. Because of it, pandas turns the best row's integers into floats in `best_row.to_dict()`. The model keeps them as integers.
- The kind of exception is not modelled beyond `MissingParameter`, `ZeroStep` and `EmptyResults`. A non-integer axis value (TypeError) counts as a missing one.
- pandas' DataFrame construction, `sort_values` and `to_dict`. Best-row selection is a maximum over the list. `MaximalRowIsUnique` shows that the unstable sort's choice among ties cannot matter on a grid.
- File contents and I/O in `save_results`: `to_markdown`, `to_html`, the Jinja template, `to_csv`, `to_json`, `open`/`write`, and `os.makedirs` at import. Only the chosen paths and their order are modelled. A write that fails (for instance into a missing sub-directory named by `ea_name`) is not modelled, and `ea_name` is taken to be a string.
- The stored `params` are only the two axes the worker reads; the other request fields are never read back by the handlers.
- The `MetaTrader5` import is unused, and `app.run` is process start-up. That package exists only for Windows, where `os.path` is `ntpath`; the paths below are modelled for a POSIX `os.path` instead.
- Paths.Join: models POSIX `posixpath.join` only. Under Windows' `ntpath.join` the separator is `\`, so reports land at `result/manual/tuning\EA_tuning.md`, and a name that starts with `\`, `/` or a drive letter (`C:`) counts as absolute.
- Paths.TuningPath: states `RESULTS_DIR + "/" + name` for a POSIX `os.path`; on Windows the source joins with `\` (and the reply's `md_path` and `html_path` carry that separator), which the model does not capture.
