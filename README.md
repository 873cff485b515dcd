# Maproulette Metrics: a verified model of the metrics run

Maproulette Metrics builds a table of MapRoulette leaderboard counts. It has
one row per user and one column per weekday of a date range. For each day it
asks the leaderboard endpoint for the users' completed tasks (editor activity)
or reviews (QC activity). The table is then written to a spreadsheet.

This project models the core of that pipeline in Dafny and proves what it
promises:

- `MetricGetter.get_metrics` is the imperative run. It has the
  `cur_iteration`, `max_iterations`, `cur_date`, `page` and `page_count`
  progress fields and walks calendar days and pages of user IDs. It uses the
  weekday query windows, skips failed pages, merges pages last-write-wins, and
  builds the table with an outer join, `fillna(0)` and `sort_index()`.
- `get_user_ids_with_caching` and `get_user_ids_from_api` are the cache-merge
  policy for username → ID resolution.
- `daterange` and `xlsx_corrector` are the calendar and output-path helpers.

Files and modules:

| file | module | contents |
|---|---|---|
| `wrappers.dfy` | `Wrappers` | `Option`, `Result` |
| `ordering.dfy` | `Ordering` | Python's `str` order (`Below`), sortedness, and the fact that the sorted form of a set is unique |
| `utils.dfy` | `Utils` | dates as ordinals, `DateRange`, a POSIX `PurePath` subset with `with_suffix`, `XlsxCorrector` |
| `get_user_ids.dfy` | `UserIds` | cached ID values, `CleanCache`, `GetUserIdsFromApi` (a loop), `Resolve` and `GetUserIdsWithCaching` |
| `get_metrics.dfy` | `Metrics` | the metric-type table, response parsing, query windows, paging, the frame and table, the class `MetricGetter` |
| `metrics_properties.dfy` | `MetricsProperties` | the properties of a run, stated over the functions that specify it |

The model's conventions:

- **Dates** are proleptic Gregorian ordinals (`date.toordinal()`), and `Weekday(d) = (d + 6) % 7`, with 0 for Monday.
- **The leaderboard request** for one page is a function parameter `fetch(ids, dimension, window)`.
  - It returns the decoded records.
  - It returns `None` for any exception `get_user_page` raises, whether in the request, in decoding the body, or in the comprehension at `get_metrics.py:53` (a record without `name` or `completedTasks`, a body that is not a list). `get_metrics` catches those.
- **The single-user ID lookup** is a function parameter `lookup(user)`. It returns the first record's `id`, or `None` when the server returns no record.
- **The cache file** as `yaml.safe_load` read it is a parameter `Option<IdMap>`. `None` stands for the `OSError` branch. A file that is not valid YAML, or not a mapping, is not modelled (see "## Left out").
- **The cache write** (`save_user_ids`) is a returned `written: Option<IdMap>`.
- **The DataFrame** has two forms:
  - while it is built, it is a `Frame`: an index set, ordered date columns, and rows of `Option<int>` cells, where `None` is NaN;
  - after `fillna` and `sort_index`, it is a `Table`: sorted rows, columns, and integer cells.
- **The observer's view** is a `queries` trace. It records each page request with the values of `cur_date`, `page` and `cur_iteration` while the request runs, plus the request's window and IDs.
- **`MetricGetter.GetMetrics`** is proved against specification functions:
  - `Resolve` for the IDs and the cache write;
  - `Pages`, `Columns`, `DayRecords` and `ExpectedCells` for the table, bundled in the predicate `Tabulated`;
  - `FetchPlan` for the trace and the final counters, bundled in `Finished`.
  The lemmas in `MetricsProperties` then prove what those functions mean.

## Model

| member | source | states |
|---|---|---|
| Metrics.MetricType | maproulette_metrics/get_metrics.py:73 | the lookup succeeds exactly for `editor` and `qc`, giving `user` and `reviewer`; any other kind is a failure (the `KeyError`) |
| Metrics.GetUserPage | maproulette_metrics/get_metrics.py:35-53 | a page fails exactly when its request fails, and otherwise maps exactly the names the response's records carry |
| Metrics.ParseRecords | maproulette_metrics/get_metrics.py:53 | a name is a key of the parsed response exactly when some record carries it |
| MetricsProperties.ParseRecordsLastWins | maproulette_metrics/get_metrics.py:53 | a name repeated in one response keeps the count of its last record |
| Metrics.Chunked | maproulette_metrics/get_metrics.py:95 | `chunked`: concatenating the pages gives the IDs back in order; every page has 1 to 50 IDs, and only the last can be short |
| Metrics.ChunkedCount | maproulette_metrics/get_metrics.py:76 | the number of pages is `ceil(n / 50)` |
| Metrics.PageCount | maproulette_metrics/get_metrics.py:76 | `ceil(n / PAGE_LIMIT)` in integer arithmetic; its meaning is stated by `PageCountCeiling` |
| MetricsProperties.PageCountCeiling | maproulette_metrics/get_metrics.py:76 | `page_count` is the fewest pages of 50 that hold `n` IDs, and 0 exactly when there are no IDs |
| Metrics.Pages | maproulette_metrics/get_metrics.py:95 | the pages of a run hold the IDs' values in key order, and there are `ceil(len(ids) / 50)` of them |
| MetricsProperties.PagesShape | maproulette_metrics/get_metrics.py:95 | the pages of a run partition the IDs in order into consecutive pages of at most 50, all full but the last |
| Metrics.DictOrder | maproulette_metrics/get_metrics.py:95 | the iteration order of the resolved IDs lists every key exactly once |
| Metrics.ValuesInOrder | maproulette_metrics/get_metrics.py:95 | `ids.values()` holds the value of each key in iteration order |
| Metrics.QueryWindow | maproulette_metrics/get_metrics.py:83-92 | Saturday and Sunday get no window; any other day gets a window of one or two days that contains it |
| Utils.Weekday | maproulette_metrics/get_metrics.py:84 | `date.weekday()` is between 0 and 6 |
| MetricsProperties.WindowRule | maproulette_metrics/get_metrics.py:83-92 | Monday is queried as `(d-1, d)`, Friday as `(d, d+1)`, Tuesday to Thursday as `(d, d)`; Saturday and Sunday are not queried; every queried window contains its day |
| MetricsProperties.WindowsPartition | maproulette_metrics/get_metrics.py:84-92 | each calendar day lies in the window of exactly one queried day: itself on a weekday, the Friday before on a Saturday, the Monday after on a Sunday |
| Metrics.Columns | maproulette_metrics/get_metrics.py:81-92 | there are at most as many columns as walked days, and none is a Saturday or a Sunday (which days they are is `ColumnsMembers`) |
| Metrics.DayRecord | maproulette_metrics/get_metrics.py:94-103 | the `day_tasks` merge of one day's pages by in-place dict union, skipping failed pages; its meaning is stated by `DayRecordMembers`, `DayRecordLastWins` and `DayRecordAllFailed` |
| Metrics.DayRecords | maproulette_metrics/get_metrics.py:81-107 | there is exactly one day record per column |
| MetricsProperties.ColumnsMembers | maproulette_metrics/get_metrics.py:90-92 | a day becomes a column exactly when it is a walked day and not a Saturday or Sunday |
| MetricsProperties.ColumnsIncreasing | maproulette_metrics/get_metrics.py:81 | columns keep the chronological order of the walked days |
| MetricsProperties.CalendarColumns | maproulette_metrics/get_metrics.py:81-107 | the columns are exactly the weekdays from `start` to `end` inclusive, strictly increasing |
| MetricsProperties.DayRecordsAt | maproulette_metrics/get_metrics.py:94-107 | there is one day record per column, and column `k`'s record merges the pages queried with that column's own window |
| MetricsProperties.DayRecordMembers | maproulette_metrics/get_metrics.py:94-103 | a name is in a day's merged record exactly when some page that answered mentions it; a failed page contributes nothing |
| MetricsProperties.DayRecordLastWins | maproulette_metrics/get_metrics.py:99 | a name in a day's record carries the count from the last answering page that mentions it, so a later page overrides an earlier one |
| MetricsProperties.DayRecordAllFailed | maproulette_metrics/get_metrics.py:98-103 | a day on which every page request failed has an empty record |
| MetricsProperties.FetchPlanLength | maproulette_metrics/get_metrics.py:95-97 | a run makes `page_count` requests per weekday and none on a weekend |
| MetricsProperties.FetchPlanAt | maproulette_metrics/get_metrics.py:82-97 | request `k * page_count + j` is page `j` of column `k`, with that column's window and the IDs of page `j`; the `cur_date`, `page` and `cur_iteration` fields, read while it runs, hold the column's day, `j`, and the starting count plus the number of requests up to and including this one |
| MetricsProperties.FetchPlanCounts | maproulette_metrics/get_metrics.py:97 | `cur_iteration` goes up by exactly one per attempted page, whether the page succeeds or fails |
| Metrics.MaxIterations | maproulette_metrics/get_metrics.py:78 | `(end - start).days * page_count`, as written; how it differs from the request count is `MaxIterationsIsNotTheRequestCount` |
| MetricsProperties.MaxIterationsIsNotTheRequestCount | maproulette_metrics/get_metrics.py:78 | `max_iterations = (end - start).days * page_count`, as written, is not the number of requests: a one-day run over a Tuesday with one page makes one request and has `max_iterations` 0 |
| Metrics.EmptyFrame | maproulette_metrics/get_metrics.py:80 | the frame starts with a row for each resolved user and no column |
| Metrics.Concat | maproulette_metrics/get_metrics.py:105-107 | appending a day's series keeps the frame aligned, joins the index with the series' names, and adds the day as the last column |
| Metrics.ConcatCell | maproulette_metrics/get_metrics.py:107 | the outer join keeps old cells, gives a newly added name NaN in the old columns, and gives a name the series lacks NaN in the new column |
| Metrics.BuildFrame | maproulette_metrics/get_metrics.py:105-107 | the concatenated frame stays aligned, and its columns are the days in the order they were added |
| Metrics.BuildFrameIndex | maproulette_metrics/get_metrics.py:80-107 | the built frame's index is the resolved users plus every name a day record holds |
| Metrics.BuildFrameCell | maproulette_metrics/get_metrics.py:105-107 | cell (`n`, `k`) of the built frame is record `k`'s count for `n`, or NaN where the record lacks `n` |
| Metrics.NamesIn | maproulette_metrics/get_metrics.py:107 | the names that join the index are exactly those some record mentions |
| Metrics.FillRow | maproulette_metrics/get_metrics.py:110 | `fillna(0)` on a row keeps every count and replaces each NaN with 0 |
| Metrics.FillNa | maproulette_metrics/get_metrics.py:110 | `fillna(0)` keeps the rows and fills each of them |
| Metrics.FilledCells | maproulette_metrics/get_metrics.py:105-110 | the filled frame is, row by row and column by column, the count of each day's record, and 0 where a name has none |
| Metrics.SortIndex | maproulette_metrics/get_metrics.py:111 | `sort_index()` gives the index names in strictly increasing `str` order, each exactly once |
| Ordering.Below | maproulette_metrics/get_metrics.py:111 | Python's `str` `<`: code-point lexicographic order, a proper prefix first; the order laws are the four lemmas below |
| Ordering.BelowIrreflexive | maproulette_metrics/get_metrics.py:111 | no name sorts before itself |
| Ordering.BelowTransitive | maproulette_metrics/get_metrics.py:111 | the order is transitive |
| Ordering.BelowTotal | maproulette_metrics/get_metrics.py:111 | any two different names are ordered one way or the other |
| Ordering.BelowAsymmetric | maproulette_metrics/get_metrics.py:111 | two names are never ordered both ways |
| Ordering.SortedUnique | maproulette_metrics/get_metrics.py:111 | two strictly sorted sequences with the same names are equal, so the sorted row order is determined |
| Metrics.MetricGetter.constructor | maproulette_metrics/get_metrics.py:57-62 | the progress fields start at 0, with no current date |
| Metrics.MetricGetter.FetchDay | maproulette_metrics/get_metrics.py:94-103 | the page loop of one day: its merged record, one request per page with `cur_iteration` counted on, `page` left at the last index, and the other fields unchanged |
| Metrics.MetricGetter.VisitDay | maproulette_metrics/get_metrics.py:82-107 | one calendar day: `cur_date` becomes the day; a weekday appends its record as a column and its page requests to the trace, a weekend adds nothing; `page` moves only when something was requested, and `cur_iteration` counts every request |
| Metrics.MetricGetter.FetchCalendar | maproulette_metrics/get_metrics.py:81-107 | the day loop: the frame built from the weekday columns and records, the full request trace, `cur_date` left at the last walked day, and `page` left at the last page index if anything was requested |
| Metrics.MetricGetter.StartRun | maproulette_metrics/get_metrics.py:76-78 | the pages hold the IDs' values in order, `page_count` is their number `ceil(len(ids) / 50)`, `max_iterations` is `(end - start).days * page_count`, and the other counters are unchanged |
| Metrics.RunCounters | maproulette_metrics/get_metrics.py:78-109 | after the day loop and `cur_iteration = max_iterations`, the trace is the run's request plan, `cur_date` is `end` (or unchanged for an empty range), and `page` is the last page index if anything was requested |
| Metrics.FinishTable | maproulette_metrics/get_metrics.py:105-111 | `fillna(0)` and `sort_index()` on the frame of the whole calendar give the weekday columns, the expected counts with 0 for NaN, and the index names in strictly increasing order |
| Metrics.MetricGetter.Tabulate | maproulette_metrics/get_metrics.py:76-111 | from the resolved IDs: `page_count`, `max_iterations`, the day loop, `cur_iteration := max_iterations`, `fillna(0)`, and `sort_index()` give a table satisfying `Tabulated` and counters satisfying `Finished` |
| Metrics.MetricGetter.GetMetrics | maproulette_metrics/get_metrics.py:64-113 | an unknown metric kind fails before anything is done or changed; otherwise the IDs and the cache write are those of `Resolve` with saving on, the table is `Tabulated`, and the trace and counters are `Finished` |
| MetricsProperties.TabulatedCells | maproulette_metrics/get_metrics.py:94-110 | every cell of the table is what the last answering page reported for its row's name in its column's window, or 0 |
| MetricsProperties.TabulatedRows | maproulette_metrics/get_metrics.py:80-107 | the rows are exactly the resolved users and the names some response brought (the outer join) |
| MetricsProperties.TabulatedZeroFill | maproulette_metrics/get_metrics.py:80-110 | a resolved user that no answering page mentions still has a row, and it is all zeros |
| MetricsProperties.TabulatedDeterministic | maproulette_metrics/get_metrics.py:110-111 | two tables of the same run are equal: the row order depends only on the names |
| MetricsProperties.TabulatedNoWeekend | maproulette_metrics/get_metrics.py:90-92 | no column is a Saturday or a Sunday |
| MetricsProperties.TwoUserScenario | maproulette_metrics/get_metrics.py:80-111 | alice and bob over Tuesday 2024-01-02 and Wednesday 2024-01-03, with alice reported at 3 on the first day only, give rows `[alice, bob]`, the two days as columns, alice `[3, 0]` and bob `[0, 0]` |
| UserIds.Decimal | maproulette_metrics/get_user_ids.py:72 | `str()` of a non-negative integer ID is a non-empty string of digits, with no leading zero unless the ID is 0 |
| UserIds.DecimalValue | maproulette_metrics/get_user_ids.py:72 | reading the digits back, independently of how they were written, gives the number |
| UserIds.Truthy | maproulette_metrics/get_user_ids.py:72 | an ID value is truthy exactly when it is not `0`, not `""` and not null |
| UserIds.Str | maproulette_metrics/get_user_ids.py:72 | `str()` of an integer ID is non-empty and starts with `-` exactly when the ID is negative |
| UserIds.StrValue | maproulette_metrics/get_user_ids.py:72 | `int(str(n)) == n` for every integer ID |
| UserIds.StrNumInjective | maproulette_metrics/get_user_ids.py:72 | two integer IDs with the same text are equal, so the conversion merges no two IDs |
| UserIds.Resolve | maproulette_metrics/get_user_ids.py:59-86 | only requested users missing from the cleaned cache are looked up, the finds are among them, and a cache write happens only with `save` on and writes the returned IDs |
| UserIds.LoadCache | maproulette_metrics/get_user_ids.py:65-69 | an `OSError` while opening or reading the cache (`None`) gives the empty cache; a loaded file gives its contents |
| UserIds.CleanCache | maproulette_metrics/get_user_ids.py:72 | the cleaned cache keeps exactly the entries with a truthy ID, each converted with `str()` |
| UserIds.CleanCacheValues | maproulette_metrics/get_user_ids.py:72 | every ID left in the cleaned cache is a non-empty string |
| UserIds.CleanCacheIdempotent | maproulette_metrics/get_user_ids.py:72 | cleaning a cleaned cache changes nothing |
| UserIds.FoundIds | maproulette_metrics/get_user_ids.py:47-56 | the IDs found are, for exactly the users whose lookup gave a truthy ID, that ID |
| UserIds.GetUserIdsFromApi | maproulette_metrics/get_user_ids.py:47-56 | the loop returns `FoundIds` and looks up each given user exactly once |
| UserIds.GetUserIdsWithCaching | maproulette_metrics/get_user_ids.py:59-86 | returns `Resolve`'s combined IDs and cache write, and looks up, once each, exactly the requested users missing from the cleaned cache |
| UserIds.ResolveContents | maproulette_metrics/get_user_ids.py:74-76 | only requested users missing from the cleaned cache are looked up; the result is the cleaned cache plus the new finds on disjoint keys, so no cached ID is overwritten and every cached user is kept |
| UserIds.ResolveDropsUnknown | maproulette_metrics/get_user_ids.py:51-55 | a requested user is missing from the result exactly when it is not cached and its lookup gave no record or a falsy ID |
| UserIds.ResolveTruthy | maproulette_metrics/get_user_ids.py:72-76 | every ID in the result is truthy |
| UserIds.ResolveWrites | maproulette_metrics/get_user_ids.py:78-84 | the cache is written exactly when `save` holds and some lookup found a new ID, and what is written is the returned map |
| UserIds.ResolveAllCached | maproulette_metrics/get_user_ids.py:74-84 | when every requested user is cached, nothing is looked up and nothing is written |
| UserIds.ResolveUnreadableCache | maproulette_metrics/get_user_ids.py:65-69 | an unreadable cache behaves as an empty one, and the result is then just the lookups' finds |
| UserIds.ResolveTwice | maproulette_metrics/get_user_ids.py:74-84 | a second identical call against the cache the first call wrote writes nothing, looks up only the users still unresolved (none if all were resolved), and returns the first result with IDs in string form |
| Utils.DateRange | maproulette_metrics/utils.py:14-16 | `daterange(s, e)` yields `max(0, e - s)` dates, the `i`-th being `s + i` |
| Utils.DateRangeMembers | maproulette_metrics/utils.py:14-16 | a date is yielded exactly when `s <= d < e`, so the range is half-open |
| Utils.DateRangeLast | maproulette_metrics/utils.py:14-16 | the range is empty exactly when `e <= s`, and otherwise its last date is `e - 1`, so `daterange(start, end + 1)` ends at `end` |
| Utils.DateRangeIncreasing | maproulette_metrics/utils.py:16 | consecutive dates differ by one day |
| Utils.ParsePath | maproulette_metrics/utils.py:10 | `Path(s)` is anchored exactly when `s` starts with `/`, and keeps no empty, `.` or `/`-holding component |
| Utils.Render | maproulette_metrics/utils.py:10 | `str(p)` is never empty for a path `Path()` produces, and starts with `/` exactly when the path is anchored |
| Utils.Name | maproulette_metrics/utils.py:11 | `PurePath.name`: the last component, empty for a path without components (`.`, `/`); `with_suffix` refuses exactly those |
| Utils.ToPath | maproulette_metrics/utils.py:10 | `Path(raw_path)`: a string is parsed, a `Path` is taken as it is |
| Utils.Suffix | maproulette_metrics/utils.py:11 | `PurePath.suffix`: empty, or a tail of the name of at least two characters that starts with its only dot and is shorter than the name, so a dot-file such as `.xlsx` has no suffix |
| Utils.Stem | maproulette_metrics/utils.py:11 | `PurePath.stem`: the stem followed by the suffix is the name |
| Utils.WithSuffix | maproulette_metrics/utils.py:11 | `with_suffix` succeeds exactly when the path has a name and the suffix is empty or a dot-led text without `/` other than `.`; each failure is the matching `ValueError`; success keeps the anchor and the number of components |
| Utils.XlsxCorrector | maproulette_metrics/utils.py:6-11 | the correction succeeds exactly when the path has a non-empty name |
| Utils.ParseRender | maproulette_metrics/utils.py:10 | `Path(str(p)) == p` for every path `Path()` can produce |
| Utils.XlsxCorrectorFails | maproulette_metrics/utils.py:11 | `with_suffix` raises `ValueError` exactly when the path has an empty name |
| Utils.XlsxCorrectorSuffix | maproulette_metrics/utils.py:6-11 | the corrected path's suffix is `.xlsx`; its stem, anchoring and directory components are those of the input |
| Utils.XlsxCorrectorText | maproulette_metrics/utils.py:11 | the corrected path's text ends with `.xlsx` |
| Utils.CorrectedShape | maproulette_metrics/utils.py:11 | correcting a named path in normal form succeeds with a path in normal form, the same anchor and directories, and the name `stem + ".xlsx"` |
| Utils.XlsxCorrectorIdempotent | maproulette_metrics/utils.py:6-11 | correcting a corrected path, passed either as a `Path` or as its text, gives it back unchanged |
| Utils.XlsxCorrectorOnName | maproulette_metrics/utils.py:10-11 | a plain file name becomes its stem plus `.xlsx` |
| Utils.XlsxCorrectorReplacesExtension | maproulette_metrics/utils.py:10-11 | `stem.ext` becomes `stem.xlsx` |
| Utils.XlsxCorrectorAddsExtension | maproulette_metrics/utils.py:10-11 | a name without a dot gets `.xlsx` appended |
| Utils.XlsxCorrectorMistypedExample | tests/test_get_metrics.py:8 | `"test.xslx"` is corrected to `test.xlsx` |
| Utils.XlsxCorrectorBareExample | tests/test_get_metrics.py:8 | `"test"` is corrected to `test.xlsx` |

## Left out

- HTTP: the requests, `raise_for_status` and JSON decoding are the `fetch` and `lookup` parameters. Whatever exception a leaderboard request raises, the model only sees that it failed.
- YAML file I/O, the `appdirs` cache directory, `keyring` and the API key, and environment configuration (`maproulette_metrics/__init__.py`) are not modelled. The cache enters as a loaded value and leaves as `written`.
- `written`: records the `save_user_ids` call; the file contents `yaml.dump` produces are not modelled.
- A broken cache file ends the run, and the model does not express that. Only `OSError` is caught (`get_user_ids.py:68`). A file that is not valid YAML raises `yaml.YAMLError` from `safe_load` at line 67. A file whose top level is a list or a scalar makes `cached_ids.items()` at line 72 raise `AttributeError`. Either way `get_metrics` aborts before any request and writes nothing. `LoadCache` treats only an unreadable file (`None`) as an empty cache.
- YAML cache values are limited to integers, strings and null (`IdValue`). Floats, booleans and nested values are not modelled, and neither is `safe_load` returning `None` for an empty file.
- `print` logging in `get_user_ids_from_api` is not modelled.
- `write_excel`, the spreadsheet formatting and column widths, and the CLI and Qt front ends are not part of this model.
- pandas details are not modelled: dtypes and column labels as `date` objects (they are ordinals here). Columns that had a gap are `float64` after `fillna(0)`, which does not downcast; columns in which every row had a count stay `int64`. The model's integer cells stand for both dtypes.
- `Record.completedTasks` is an `int`. A response whose `completedTasks` is null or not an integer passes the `try` of `get_metrics.py:98-103`, but `pd.Series(day_tasks, dtype=int)` at line 105 then raises and ends the run. The model's record type rules that response out.
- Exceptions from `get_single_user_id_from_api` (`get_user_ids.py:36-44`: a failed request, a non-JSON body, a record without `id`) and from `save_user_ids` (`get_user_ids.py:89-91`) are not caught by the source: they abort the whole run, and nothing is saved. The total `lookup` parameter and the recorded `written` cannot express that abort; the model covers only runs in which those calls return.
- `DictOrder`: the order of a Python `dict`, and of the `set(users) - ...` difference the lookups iterate, is left open. Any order that lists each key once is allowed, and the results are stated for any such order.
- Dates outside Python's `date` range (years 1 to 9999) and `OverflowError` are not modelled. Dates are unbounded integers.
- Suffix, Stem, WithSuffix and XlsxCorrector follow `PurePath.suffix` as CPython 3.10 to 3.13 define it: from the last dot, unless that dot is the first or the last character of the name. The package admits Python 3.14 as well (`python_requires=">=3.10"`), where `suffix` is `os.path.splitext(name)[1]`. There a single trailing dot is a suffix, and all leading dots are skipped. So on 3.14 `xlsx_corrector("report.")` gives `report.xlsx` where the model gives `report..xlsx`, and `xlsx_corrector("..data")` gives `..data.xlsx` where the model gives `..xlsx`.
- Paths are POSIX `PurePath` only: no Windows drives or separators, and no special handling of a leading `//`. `Path` values are assumed to be ones `Path()` can produce.
- The progress fields are updated sequentially. The concurrent polling of those fields by a GUI thread is not modelled.
- `MetricGetter.GetMetrics`: `cur_iteration` is not reset at the start of a run, as in the source. `max_iterations` is `(end - start).days * page_count` as written, not the number of requests (see `MaxIterationsIsNotTheRequestCount`).
- Cancellation, retries and a business-day progress total are not in the source and are not added.
- The import-time defects are not modelled: `os.get` in `get_user_ids.py:13`, the missing `get_api_key` in `utils.py`, and the test's use of `get_metrics.xlsx_corrector`. The `xlsx_corrector` examples are stated for the function the test means.
