/**
  maproulette_metrics/get_metrics.py: the day-by-day, page-by-page fetch of
  leaderboard counts and their assembly into a username x date table.

  The leaderboard request of one page is a function parameter (`Fetcher`),
  returning the decoded response or `None` for any exception the request
  raises; the DataFrame is a `Frame` while it is built and a `Table` once its
  gaps are filled and its rows sorted.
 */
module Metrics {
  import opened Wrappers
  import opened Ordering
  import opened Utils
  import opened UserIds

  /** At most this many user IDs go into one leaderboard query. */
  const PAGE_LIMIT: nat := 50

  /** Metric kind to the server's leaderboard dimension. */
  const METRIC_TYPE_TABLE: map<string, string> := map["editor" := "user", "qc" := "reviewer"]

  /** `METRIC_TYPE_TABLE[metric_type]`; `None` where Python raises `KeyError`. */
  function MetricType(metricType: string): (r: Option<string>)
    ensures r.Some? <==> metricType == "editor" || metricType == "qc"
    ensures r == Some("user") <==> metricType == "editor"
    ensures r == Some("reviewer") <==> metricType == "qc"
  {
    if metricType in METRIC_TYPE_TABLE then Some(METRIC_TYPE_TABLE[metricType]) else None
  }

  // ---------------------------------------------------------------------------
  // One leaderboard query.

  /** One element of a leaderboard response. */
  datatype Record = Record(name: string, completedTasks: int)

  /** The inclusive date window of a query. */
  datatype Window = Window(start: Date, end: Date)

  /** The leaderboard request for a page of IDs, a leaderboard dimension and a window. */
  type Fetcher = (seq<IdValue>, string, Window) -> Option<seq<Record>>

  /**
    The dictionary comprehension that turns a response into name -> count:
    records are entered in order, so a later record overwrites an earlier one
    of the same name.
   */
  function ParseRecords(records: seq<Record>): (tasks: map<string, int>)
    ensures forall n :: n in tasks <==> exists i :: 0 <= i < |records| && records[i].name == n
  {
    if records == [] then map[]
    else
      var last := records[|records| - 1];
      var prefix := records[..|records| - 1];
      assert forall i :: 0 <= i < |prefix| ==> prefix[i] == records[i];
      ParseRecords(prefix)[last.name := last.completedTasks]
  }

  /** `get_user_page`: the parsed response, or `None` when the request raised. */
  function GetUserPage(fetch: Fetcher, page: seq<IdValue>, mtype: string, window: Window): (r: Option<map<string, int>>)
    ensures r.None? <==> fetch(page, mtype, window).None?
    ensures r.Some? ==> forall n :: n in r.value <==>
      exists i :: 0 <= i < |fetch(page, mtype, window).value| && fetch(page, mtype, window).value[i].name == n
  {
    match fetch(page, mtype, window)
    case None => None
    case Some(records) => Some(ParseRecords(records))
  }

  // ---------------------------------------------------------------------------
  // Days and pages.

  /**
    The window queried for a calendar day: Monday reaches back to Sunday,
    Friday forward to Saturday, the other weekdays cover themselves, and a
    weekend day is not queried (`None`).
   */
  function QueryWindow(day: Date): (r: Option<Window>)
    ensures r.None? <==> Weekday(day) >= 5
    ensures r.Some? ==> r.value.start <= day <= r.value.end <= r.value.start + 1
  {
    if Weekday(day) == 0 then Some(Window(day - 1, day))
    else if Weekday(day) == 4 then Some(Window(day, day + 1))
    else if Weekday(day) >= 5 then None
    else Some(Window(day, day))
  }

  /** `max_iterations` as written: `(end - start) * page_count`. */
  function MaxIterations(start: Date, end: Date, pageTotal: int): int {
    (end - start) * pageTotal
  }

  /** `ceil(n / PAGE_LIMIT)`. */
  function PageCount(n: nat): nat {
    (n + PAGE_LIMIT - 1) / PAGE_LIMIT
  }

  function Flatten<T>(pages: seq<seq<T>>): seq<T> {
    if pages == [] then [] else pages[0] + Flatten(pages[1..])
  }

  /** `more_itertools.chunked(s, n)`: consecutive slices of `n` elements, the last one possibly shorter. */
  function Chunked<T>(s: seq<T>, n: nat): (pages: seq<seq<T>>)
    requires n > 0
    ensures Flatten(pages) == s
    ensures forall i :: 0 <= i < |pages| ==> 0 < |pages[i]| <= n
    ensures forall i :: 0 <= i < |pages| - 1 ==> |pages[i]| == n
    decreases |s|
  {
    if |s| == 0 then []
    else if |s| <= n then [s]
    else
      var rest := Chunked(s[n..], n);
      assert Flatten([s[..n]] + rest) == s[..n] + Flatten(rest);
      assert s == s[..n] + s[n..];
      [s[..n]] + rest
  }

  /**
    One day's record: the results of its pages merged in page order with
    `|=`, so a later page's count wins; a page whose request raised adds
    nothing.
   */
  function DayRecord(fetch: Fetcher, mtype: string, window: Window, pages: seq<seq<IdValue>>): map<string, int>
  {
    if pages == [] then map[]
    else
      var merged := DayRecord(fetch, mtype, window, pages[..|pages| - 1]);
      match GetUserPage(fetch, pages[|pages| - 1], mtype, window)
      case None => merged
      case Some(tasks) => merged + tasks
  }

  /** The calendar days that become columns: the weekdays, in their order. */
  function Columns(days: seq<Date>): (r: seq<Date>)
    ensures |r| <= |days|
    ensures forall i :: 0 <= i < |r| ==> Weekday(r[i]) < 5
  {
    if days == [] then []
    else
      var prefix := Columns(days[..|days| - 1]);
      if QueryWindow(days[|days| - 1]).Some? then prefix + [days[|days| - 1]] else prefix
  }

  /** The record of each column day, in column order. */
  function DayRecords(fetch: Fetcher, mtype: string, pages: seq<seq<IdValue>>, days: seq<Date>): (r: seq<map<string, int>>)
    ensures |r| == |Columns(days)|
  {
    if days == [] then []
    else
      var prefix := DayRecords(fetch, mtype, pages, days[..|days| - 1]);
      match QueryWindow(days[|days| - 1])
      case None => prefix
      case Some(w) => prefix + [DayRecord(fetch, mtype, w, pages)]
  }

  /**
    A page request as an observer of the progress fields sees it: the values of
    the fields `cur_date`, `page` and `cur_iteration` while it runs, and its
    window and IDs.
   */
  datatype Query = Query(date: Option<Date>, page: int, iteration: int, window: Window, ids: seq<IdValue>)

  /** The requests of one day, numbered on from `base`. */
  function DayPlan(day: Date, window: Window, pages: seq<seq<IdValue>>, base: int): seq<Query> {
    seq(|pages|, j requires 0 <= j < |pages| => Query(Some(day), j, base + j + 1, window, pages[j]))
  }

  /** All requests of a run over the calendar days `days`, in order, numbered on from `base`. */
  function FetchPlan(pages: seq<seq<IdValue>>, days: seq<Date>, base: int): seq<Query> {
    if days == [] then []
    else
      var prefix := FetchPlan(pages, days[..|days| - 1], base);
      match QueryWindow(days[|days| - 1])
      case None => prefix
      case Some(w) => prefix + DayPlan(days[|days| - 1], w, pages, base + |prefix|)
  }

  // ---------------------------------------------------------------------------
  // The table.

  /** A cell that pandas holds as NaN is `None`. */
  type Cell = Option<int>

  /** The DataFrame while it is built: its index as a set, its columns in order, a row of cells per name. */
  datatype Frame = Frame(index: set<string>, columns: seq<Date>, cells: map<string, seq<Cell>>)

  /** Every index name has a row, and every row one cell per column. */
  ghost predicate Aligned(f: Frame) {
    f.cells.Keys == f.index && forall n :: n in f.cells ==> |f.cells[n]| == |f.columns|
  }

  /** The finished table: rows in order, columns in order, one integer per row and column. */
  datatype Table = Table(rows: seq<string>, columns: seq<Date>, cells: map<string, seq<int>>)

  function NaNs(k: nat): (r: seq<Cell>)
    ensures |r| == k && forall i :: 0 <= i < k ==> r[i] == None
  {
    seq(k, _ => None)
  }

  /** `pd.DataFrame(index=names)`: rows and no column. */
  function EmptyFrame(names: set<string>): (f: Frame)
    ensures Aligned(f) && f.index == names && f.columns == []
  {
    Frame(names, [], map n | n in names :: [])
  }

  /**
    `pd.concat([df, series], axis=1)` with a series named `day`: an outer join
    on the names, so a name the series brings gets a new row of NaN, and a row
    the series lacks gets NaN in the new column.
   */
  function Concat(f: Frame, series: map<string, int>, day: Date): (g: Frame)
    requires Aligned(f)
    ensures Aligned(g)
    ensures g.index == f.index + series.Keys && g.columns == f.columns + [day]
  {
    var names := f.index + series.Keys;
    var cells := map n | n in names :: (if n in f.cells then f.cells[n] else NaNs(|f.columns|)) + [if n in series then Some(series[n]) else None];
    Frame(names, f.columns + [day], cells)
  }

  /** `fillna(0)` on one row. */
  function FillRow(row: seq<Cell>): (r: seq<int>)
    ensures |r| == |row| && forall k :: 0 <= k < |r| ==> r[k] == row[k].GetOr(0)
  {
    seq(|row|, k requires 0 <= k < |row| => row[k].GetOr(0))
  }

  /** `fillna(0)`. */
  function FillNa(f: Frame): (cells: map<string, seq<int>>)
    ensures cells.Keys == f.cells.Keys
    ensures forall n :: n in cells ==> cells[n] == FillRow(f.cells[n])
  {
    map n | n in f.cells :: FillRow(f.cells[n])
  }

  /** The frame after appending one column per record, as the run does. */
  function BuildFrame(names: set<string>, days: seq<Date>, records: seq<map<string, int>>): (f: Frame)
    requires |days| == |records|
    ensures Aligned(f) && f.columns == days
  {
    if days == [] then EmptyFrame(names)
    else Concat(BuildFrame(names, days[..|days| - 1], records[..|records| - 1]), records[|records| - 1], days[|days| - 1])
  }

  /** Every name a record mentions. */
  function NamesIn(records: seq<map<string, int>>): (names: set<string>)
    ensures forall n :: n in names <==> exists k :: 0 <= k < |records| && n in records[k]
  {
    if records == [] then {}
    else
      var prefix := records[..|records| - 1];
      assert forall k :: 0 <= k < |prefix| ==> prefix[k] == records[k];
      NamesIn(prefix) + records[|records| - 1].Keys
  }

  /** The count of `name` in a record, 0 when the record lacks it. */
  function CountOr0(record: map<string, int>, name: string): int {
    if name in record then record[name] else 0
  }

  /**
    The table's cells in closed form: a row for every resolved user and for
    every name a record brought, and in column `k` the count of record `k`,
    or 0.
   */
  function ExpectedCells(users: set<string>, records: seq<map<string, int>>): map<string, seq<int>> {
    map n | n in users + NamesIn(records) :: seq(|records|, k requires 0 <= k < |records| => CountOr0(records[k], n))
  }

  // ---------------------------------------------------------------------------
  // Helpers of the run.

  /** `order` lists the keys of `keys` once each. */
  ghost predicate IsOrder(order: seq<string>, keys: set<string>) {
    && |order| == |keys|
    && (forall n :: n in order <==> n in keys)
    && (forall i, j :: 0 <= i < j < |order| ==> order[i] != order[j])
  }

  /** The keys without repeats, in an order the model leaves open: a dict's iteration order. */
  method DictOrder(keys: set<string>) returns (order: seq<string>)
    ensures IsOrder(order, keys)
  {
    order := [];
    var remaining := keys;
    while remaining != {}
      invariant remaining <= keys
      invariant forall n :: n in order <==> n in keys && n !in remaining
      invariant |order| + |remaining| == |keys|
      invariant forall i, j :: 0 <= i < j < |order| ==> order[i] != order[j]
      decreases |remaining|
    {
      var n :| n in remaining;
      order := order + [n];
      remaining := remaining - {n};
    }
  }

  /** `ids.values()` in the order `order` of its keys. */
  function ValuesInOrder(ids: IdMap, order: seq<string>): (values: seq<IdValue>)
    requires forall i :: 0 <= i < |order| ==> order[i] in ids
    ensures |values| == |order| && forall i :: 0 <= i < |order| ==> values[i] == ids[order[i]]
  {
    seq(|order|, i requires 0 <= i < |order| && order[i] in ids => ids[order[i]])
  }

  /** `sort_index()`: the names in increasing string order. */
  method SortIndex(names: set<string>) returns (rows: seq<string>)
    ensures StrictlySorted(rows)
    ensures forall n :: n in rows <==> n in names
  {
    rows := [];
    var remaining := names;
    while remaining != {}
      invariant remaining <= names
      invariant forall n :: n in rows <==> n in names && n !in remaining
      invariant StrictlySorted(rows)
      invariant forall i, y :: 0 <= i < |rows| && y in remaining ==> Below(rows[i], y)
      decreases |remaining|
    {
      ExistsLeast(remaining);
      var least :| least in remaining && forall y :: y in remaining && y != least ==> Below(least, y);
      rows := rows + [least];
      remaining := remaining - {least};
    }
  }

  // ---------------------------------------------------------------------------
  // Unfolding steps the run's loops rely on.

  lemma ColumnsStep(days: seq<Date>, i: nat)
    requires i < |days|
    ensures Columns(days[..i + 1]) == Columns(days[..i]) + (if QueryWindow(days[i]).Some? then [days[i]] else [])
  {
    assert days[..i + 1][..i] == days[..i];
  }

  lemma DayRecordsStep(fetch: Fetcher, mtype: string, pages: seq<seq<IdValue>>, days: seq<Date>, i: nat)
    requires i < |days|
    ensures DayRecords(fetch, mtype, pages, days[..i + 1]) ==
      DayRecords(fetch, mtype, pages, days[..i]) +
      (match QueryWindow(days[i]) case None => [] case Some(w) => [DayRecord(fetch, mtype, w, pages)])
  {
    assert days[..i + 1][..i] == days[..i];
  }

  lemma FetchPlanStep(pages: seq<seq<IdValue>>, days: seq<Date>, base: int, i: nat)
    requires i < |days|
    ensures QueryWindow(days[i]).None? ==> FetchPlan(pages, days[..i + 1], base) == FetchPlan(pages, days[..i], base)
    ensures QueryWindow(days[i]).Some? ==>
      FetchPlan(pages, days[..i + 1], base) == FetchPlan(pages, days[..i], base) +
        DayPlan(days[i], QueryWindow(days[i]).value, pages, base + |FetchPlan(pages, days[..i], base)|)
  {
    assert days[..i + 1][..i] == days[..i];
  }

  /** A weekday's requests extend the plan of the days before it. */
  lemma FetchPlanSnoc(pages: seq<seq<IdValue>>, days: seq<Date>, base: int, i: nat, queries: seq<Query>, dayQueries: seq<Query>)
    requires i < |days| && QueryWindow(days[i]).Some?
    requires queries == FetchPlan(pages, days[..i], base)
    requires dayQueries == DayPlan(days[i], QueryWindow(days[i]).value, pages, base + |queries|)
    ensures queries + dayQueries == FetchPlan(pages, days[..i + 1], base)
  {
    FetchPlanStep(pages, days, base, i);
  }

  lemma DayRecordStep(fetch: Fetcher, mtype: string, window: Window, pages: seq<seq<IdValue>>, j: nat)
    requires j < |pages|
    ensures DayRecord(fetch, mtype, window, pages[..j + 1]) ==
      match GetUserPage(fetch, pages[j], mtype, window)
      case None => DayRecord(fetch, mtype, window, pages[..j])
      case Some(tasks) => DayRecord(fetch, mtype, window, pages[..j]) + tasks
  {
    assert pages[..j + 1][..j] == pages[..j];
  }

  lemma DayPlanStep(day: Date, window: Window, pages: seq<seq<IdValue>>, base: int, j: nat)
    requires j < |pages|
    ensures DayPlan(day, window, pages[..j + 1], base) ==
      DayPlan(day, window, pages[..j], base) + [Query(Some(day), j, base + j + 1, window, pages[j])]
  {
  }

  /** Appending a column to the built frame is one `Concat`. */
  lemma BuildFrameSnoc(names: set<string>, days: seq<Date>, records: seq<map<string, int>>, record: map<string, int>, day: Date)
    requires |days| == |records|
    ensures BuildFrame(names, days + [day], records + [record]) == Concat(BuildFrame(names, days, records), record, day)
  {
    assert (days + [day])[..|days|] == days;
    assert (records + [record])[..|records|] == records;
  }

  lemma {:induction false} ColumnsMatchRecords(fetch: Fetcher, mtype: string, pages: seq<seq<IdValue>>, days: seq<Date>)
    ensures |DayRecords(fetch, mtype, pages, days)| == |Columns(days)|
  {
    if days != [] {
      ColumnsMatchRecords(fetch, mtype, pages, days[..|days| - 1]);
    }
  }

  lemma {:induction false} BuildFrameIndex(names: set<string>, days: seq<Date>, records: seq<map<string, int>>)
    requires |days| == |records|
    ensures BuildFrame(names, days, records).index == names + NamesIn(records)
  {
    if days != [] {
      var m := |days| - 1;
      BuildFrameIndex(names, days[..m], records[..m]);
    }
  }

  /**
    A cell of an old column keeps its value, NaN for a row the series added;
    the cell of the new column is the series' count, NaN where it has none.
   */
  lemma ConcatCell(f: Frame, series: map<string, int>, day: Date, n: string, k: nat)
    requires Aligned(f) && n in Concat(f, series, day).cells && k <= |f.columns|
    ensures Concat(f, series, day).cells[n][k] ==
      if k == |f.columns| then (if n in series then Some(series[n]) else None)
      else if n in f.cells then f.cells[n][k] else None
  {
  }

  /** A cell of the built frame holds the count of its column's record, NaN when the record lacks the name. */
  lemma {:induction false} BuildFrameCell(names: set<string>, days: seq<Date>, records: seq<map<string, int>>, n: string, k: nat)
    requires |days| == |records|
    requires n in BuildFrame(names, days, records).cells && k < |records|
    ensures BuildFrame(names, days, records).cells[n][k] == (if n in records[k] then Some(records[k][n]) else None)
  {
    var m := |days| - 1;
    var pd, pr := days[..m], records[..m];
    var before := BuildFrame(names, pd, pr);
    assert BuildFrame(names, days, records) == Concat(before, records[m], days[m]);
    if k == m {
      ConcatCell(before, records[m], days[m], n, k);
    } else {
      ConcatCell(before, records[m], days[m], n, k);
      assert pr[k] == records[k];
      if n in before.cells {
        BuildFrameCell(names, pd, pr, n, k);
      } else {
        BuildFrameIndex(names, pd, pr);
        assert n !in NamesIn(pr);
      }
    }
  }

  /** Filling the built frame gives the closed-form cells `ExpectedCells`. */
  lemma FilledCells(names: set<string>, records: seq<map<string, int>>, days: seq<Date>)
    requires |days| == |records|
    ensures FillNa(BuildFrame(names, days, records)) == ExpectedCells(names, records)
  {
    var f := BuildFrame(names, days, records);
    BuildFrameIndex(names, days, records);
    var filled, expected := FillNa(f), ExpectedCells(names, records);
    assert filled.Keys == expected.Keys;
    forall n | n in filled
      ensures filled[n] == expected[n]
    {
      FilledRow(names, days, records, n);
    }
  }

  lemma FilledRow(names: set<string>, days: seq<Date>, records: seq<map<string, int>>, n: string)
    requires |days| == |records| && n in BuildFrame(names, days, records).cells && n in ExpectedCells(names, records)
    ensures FillRow(BuildFrame(names, days, records).cells[n]) == ExpectedCells(names, records)[n]
  {
    var filled, expected := FillRow(BuildFrame(names, days, records).cells[n]), ExpectedCells(names, records)[n];
    assert |filled| == |records| == |expected|;
    forall k | 0 <= k < |records|
      ensures filled[k] == expected[k]
    {
      BuildFrameCell(names, days, records, n, k);
    }
  }

  // ---------------------------------------------------------------------------
  // The run.

  /** After the first `k` pages of a day the page loop holds their merged record and their requests. */
  ghost predicate Paged(fetch: Fetcher, mtype: string, window: Window, pages: seq<seq<IdValue>>, day: Date, base: int,
                        k: nat, dayTasks: map<string, int>, queries: seq<Query>)
  {
    && k <= |pages|
    && dayTasks == DayRecord(fetch, mtype, window, pages[..k])
    && queries == DayPlan(day, window, pages[..k], base)
  }

  /** One more page: its answer, if any, is merged over the record, and its request is appended. */
  lemma PageStep(fetch: Fetcher, mtype: string, window: Window, pages: seq<seq<IdValue>>, day: Date, base: int,
                 k: nat, dayTasks: map<string, int>, queries: seq<Query>, tasks: Option<map<string, int>>)
    requires k < |pages| && Paged(fetch, mtype, window, pages, day, base, k, dayTasks, queries)
    requires tasks == GetUserPage(fetch, pages[k], mtype, window)
    ensures Paged(fetch, mtype, window, pages, day, base, k + 1, if tasks.Some? then dayTasks + tasks.value else dayTasks,
                  queries + [Query(Some(day), k, base + k + 1, window, pages[k])])
  {
    DayPlanStep(day, window, pages, base, k);
    DayRecordStep(fetch, mtype, window, pages, k);
  }

  lemma PagedDone(fetch: Fetcher, mtype: string, window: Window, pages: seq<seq<IdValue>>, day: Date, base: int,
                  dayTasks: map<string, int>, queries: seq<Query>)
    requires Paged(fetch, mtype, window, pages, day, base, |pages|, dayTasks, queries)
    ensures dayTasks == DayRecord(fetch, mtype, window, pages) && queries == DayPlan(day, window, pages, base)
  {
    assert pages[..|pages|] == pages;
  }

  /**
    After the first `i` calendar days the day loop holds the weekday columns
    and records so far, the frame built from them, and the requests so far.
   */
  ghost predicate Walked(names: set<string>, fetch: Fetcher, mtype: string, pages: seq<seq<IdValue>>, calendar: seq<Date>, base: int,
                         i: nat, columns: seq<Date>, records: seq<map<string, int>>, df: Frame, queries: seq<Query>)
  {
    && i <= |calendar|
    && columns == Columns(calendar[..i]) && records == DayRecords(fetch, mtype, pages, calendar[..i])
    && |columns| == |records| && df == BuildFrame(names, columns, records)
    && queries == FetchPlan(pages, calendar[..i], base)
  }

  /** A weekend day leaves the loop's frame and requests as they were. */
  lemma WalkWeekend(names: set<string>, fetch: Fetcher, mtype: string, pages: seq<seq<IdValue>>, calendar: seq<Date>, base: int,
                    i: nat, columns: seq<Date>, records: seq<map<string, int>>, df: Frame, queries: seq<Query>)
    requires i < |calendar| && QueryWindow(calendar[i]).None?
    requires Walked(names, fetch, mtype, pages, calendar, base, i, columns, records, df, queries)
    ensures Walked(names, fetch, mtype, pages, calendar, base, i + 1, columns, records, df, queries)
  {
    ColumnsStep(calendar, i);
    DayRecordsStep(fetch, mtype, pages, calendar, i);
    FetchPlanStep(pages, calendar, base, i);
  }

  /** A weekday appends its record as a column and its page requests to the trace. */
  lemma WalkWeekday(names: set<string>, fetch: Fetcher, mtype: string, pages: seq<seq<IdValue>>, calendar: seq<Date>, base: int,
                    i: nat, columns: seq<Date>, records: seq<map<string, int>>, df: Frame, queries: seq<Query>,
                    dayTasks: map<string, int>, dayQueries: seq<Query>)
    requires i < |calendar| && QueryWindow(calendar[i]).Some?
    requires Walked(names, fetch, mtype, pages, calendar, base, i, columns, records, df, queries)
    requires dayTasks == DayRecord(fetch, mtype, QueryWindow(calendar[i]).value, pages)
    requires dayQueries == DayPlan(calendar[i], QueryWindow(calendar[i]).value, pages, base + |queries|)
    ensures Aligned(df)
    ensures Walked(names, fetch, mtype, pages, calendar, base, i + 1, columns + [calendar[i]], records + [dayTasks],
                   Concat(df, dayTasks, calendar[i]), queries + dayQueries)
  {
    var day := calendar[i];
    assert columns + [day] == Columns(calendar[..i + 1]) by { ColumnsStep(calendar, i); }
    assert records + [dayTasks] == DayRecords(fetch, mtype, pages, calendar[..i + 1]) by {
      DayRecordsStep(fetch, mtype, pages, calendar, i);
    }
    assert queries + dayQueries == FetchPlan(pages, calendar[..i + 1], base) by {
      assert queries == FetchPlan(pages, calendar[..i], base);
      FetchPlanSnoc(pages, calendar, base, i, queries, dayQueries);
    }
    assert Concat(df, dayTasks, day) == BuildFrame(names, columns + [day], records + [dayTasks]) by {
      BuildFrameSnoc(names, columns, records, dayTasks, day);
    }
  }

  /** The walk of the whole calendar gives the frame of its columns and records, and its request plan. */
  lemma WalkDone(names: set<string>, fetch: Fetcher, mtype: string, pages: seq<seq<IdValue>>, calendar: seq<Date>, base: int,
                 columns: seq<Date>, records: seq<map<string, int>>, df: Frame, queries: seq<Query>)
    requires Walked(names, fetch, mtype, pages, calendar, base, |calendar|, columns, records, df, queries)
    ensures |Columns(calendar)| == |DayRecords(fetch, mtype, pages, calendar)|
    ensures df == BuildFrame(names, Columns(calendar), DayRecords(fetch, mtype, pages, calendar))
    ensures queries == FetchPlan(pages, calendar, base)
  {
    assert calendar[..|calendar|] == calendar;
  }

  /**
    The table the run returns, from the frame of the whole calendar and the
    sorted index: it is `Tabulated`.
   */
  lemma FinishTable(ids: IdMap, order: seq<string>, start: Date, end: Date, mtype: string, fetch: Fetcher, df: Frame, rows: seq<string>)
    requires IsOrder(order, ids.Keys)
    requires var calendar := DateRange(start, end + 1);
      && |Columns(calendar)| == |DayRecords(fetch, mtype, Pages(ids, order), calendar)|
      && df == BuildFrame(ids.Keys, Columns(calendar), DayRecords(fetch, mtype, Pages(ids, order), calendar))
    requires StrictlySorted(rows) && forall n :: n in rows <==> n in df.index
    ensures Tabulated(Table(rows, df.columns, FillNa(df)), ids, order, start, end, mtype, fetch)
  {
    var calendar := DateRange(start, end + 1);
    FilledCells(ids.Keys, DayRecords(fetch, mtype, Pages(ids, order), calendar), Columns(calendar));
  }

  datatype MetricsError = UnknownMetricType(metricType: string)

  /** The IDs' values in the order `order`, in pages of `PAGE_LIMIT`: `chunked(ids.values(), PAGE_LIMIT)`. */
  function Pages(ids: IdMap, order: seq<string>): (pages: seq<seq<IdValue>>)
    requires IsOrder(order, ids.Keys)
    ensures Flatten(pages) == ValuesInOrder(ids, order)
    ensures |pages| == PageCount(|ids|)
  {
    ChunkedCount(ValuesInOrder(ids, order));
    Chunked(ValuesInOrder(ids, order), PAGE_LIMIT)
  }

  /**
    The finished table of a run over `start..end` (inclusive) with the IDs
    `ids` paged in the order `order`: a column per weekday, a row per user
    or name a response brought, sorted by name, and the counts of each
    day's merged record, 0 where a name has none.
   */
  ghost predicate Tabulated(table: Table, ids: IdMap, order: seq<string>, start: Date, end: Date, mtype: string, fetch: Fetcher)
    requires IsOrder(order, ids.Keys)
  {
    var calendar := DateRange(start, end + 1);
    && table.columns == Columns(calendar)
    && table.cells == ExpectedCells(ids.Keys, DayRecords(fetch, mtype, Pages(ids, order), calendar))
    && StrictlySorted(table.rows)
    && (forall n :: n in table.rows <==> n in table.cells)
  }

  /**
    The counters `iteration`, `maxIter`, `date`, `pg` and `pcount` at the end
    of a run over `start..end` whose requests are `queries`, from counters
    `iteration0`, `date0`, `page0`. `max_iterations` is
    `(end - start) * page_count` as written, one day short of the days walked,
    and `cur_iteration` ends equal to it.
   */
  ghost predicate Counters(pageTotal: nat, start: Date, end: Date, queries: seq<Query>, pages: seq<seq<IdValue>>,
                           iteration0: int, date0: Option<Date>, page0: int,
                           iteration: int, maxIter: int, date: Option<Date>, pg: int, pcount: int)
  {
    && queries == FetchPlan(pages, DateRange(start, end + 1), iteration0)
    && pcount == pageTotal == |pages|
    && maxIter == MaxIterations(start, end, pcount)
    && iteration == maxIter
    && date == (if start <= end then Some(end) else date0)
    && pg == (if queries == [] then page0 else pcount - 1)
  }

  /** The day loop's final counters, once `cur_iteration` is set to `max_iterations`, are those of `Counters`. */
  lemma RunCounters(pages: seq<seq<IdValue>>, start: Date, end: Date, queries: seq<Query>,
                    iteration0: int, date0: Option<Date>, page0: int, maxIter: int, date: Option<Date>, pg: int, pcount: int)
    requires pcount == |pages| && maxIter == MaxIterations(start, end, pcount)
    requires var calendar := DateRange(start, end + 1);
      && queries == FetchPlan(pages, calendar, iteration0)
      && date == (if calendar == [] then date0 else Some(calendar[|calendar| - 1]))
    requires pg == if queries == [] then page0 else |pages| - 1
    ensures Counters(|pages|, start, end, queries, pages, iteration0, date0, page0, maxIter, maxIter, date, pg, pcount)
  {
    DateRangeLast(start, end + 1);
  }

  /** `MetricGetter`: a run of `get_metrics` and the progress counters an observer polls while it runs. */
  class MetricGetter {
    var curIteration: int
    var maxIterations: int
    var curDate: Option<Date>
    var page: int
    var pageCount: int

    constructor ()
      ensures curIteration == 0 && maxIterations == 0 && curDate == None && page == 0 && pageCount == 0
    {
      curIteration, maxIterations, curDate, page, pageCount := 0, 0, None, 0, 0;
    }

    /**
      The page loop of one day: every page of IDs is requested with the
      day's window, and the successful pages are merged into one record.
     */
    method FetchDay(day: Date, window: Window, pages: seq<seq<IdValue>>, mtype: string, fetch: Fetcher)
      returns (dayTasks: map<string, int>, ghost queries: seq<Query>)
      requires curDate == Some(day)
      modifies this
      ensures dayTasks == DayRecord(fetch, mtype, window, pages)
      ensures queries == DayPlan(day, window, pages, old(curIteration))
      ensures curIteration == old(curIteration) + |pages|
      ensures page == if pages == [] then old(page) else |pages| - 1
      ensures curDate == old(curDate) && maxIterations == old(maxIterations) && pageCount == old(pageCount)
    {
      dayTasks, queries := map[], [];
      ghost var base := curIteration;
      var iteration := 0;
      while iteration < |pages|
        invariant Paged(fetch, mtype, window, pages, day, base, iteration, dayTasks, queries)
        invariant curIteration == base + iteration
        invariant page == if iteration == 0 then old(page) else iteration - 1
        invariant curDate == old(curDate) && maxIterations == old(maxIterations) && pageCount == old(pageCount)
      {
        page := iteration;
        curIteration := curIteration + 1;
        var tasks := GetUserPage(fetch, pages[iteration], mtype, window);
        PageStep(fetch, mtype, window, pages, day, base, iteration, dayTasks, queries, tasks);
        queries := queries + [Query(curDate, page, curIteration, window, pages[iteration])];
        if tasks.Some? {
          dayTasks := dayTasks + tasks.value;
        }
        iteration := iteration + 1;
      }
      PagedDone(fetch, mtype, window, pages, day, base, dayTasks, queries);
    }

    /**
      One calendar day of the day loop: it becomes the current date and, on a
      weekday, its pages are requested and its record is added to the frame
      as a column named after the day.
     */
    method VisitDay(names: set<string>, calendar: seq<Date>, i: nat, pages: seq<seq<IdValue>>, mtype: string, fetch: Fetcher,
                    ghost base: int, ghost columns: seq<Date>, ghost records: seq<map<string, int>>, df: Frame, ghost queries: seq<Query>)
      returns (next: Frame, ghost columns': seq<Date>, ghost records': seq<map<string, int>>, ghost queries': seq<Query>)
      requires i < |calendar| && Walked(names, fetch, mtype, pages, calendar, base, i, columns, records, df, queries)
      requires curIteration == base + |queries|
      modifies this
      ensures Walked(names, fetch, mtype, pages, calendar, base, i + 1, columns', records', next, queries')
      ensures curIteration == base + |queries'| && |queries'| >= |queries|
      ensures curDate == Some(calendar[i])
      ensures page == if |queries'| == |queries| then old(page) else |pages| - 1
      ensures maxIterations == old(maxIterations) && pageCount == old(pageCount)
    {
      var day := calendar[i];
      curDate := Some(day);
      var window := QueryWindow(day);
      if window.Some? {
        var dayTasks;
        ghost var dayQueries;
        dayTasks, dayQueries := FetchDay(day, window.value, pages, mtype, fetch);
        WalkWeekday(names, fetch, mtype, pages, calendar, base, i, columns, records, df, queries, dayTasks, dayQueries);
        next := Concat(df, dayTasks, day);
        columns', records', queries' := columns + [day], records + [dayTasks], queries + dayQueries;
      } else {
        WalkWeekend(names, fetch, mtype, pages, calendar, base, i, columns, records, df, queries);
        next, columns', records', queries' := df, columns, records, queries;
      }
    }

    /** The day loop over the calendar days. */
    method FetchCalendar(names: set<string>, calendar: seq<Date>, pages: seq<seq<IdValue>>, mtype: string, fetch: Fetcher)
      returns (df: Frame, ghost queries: seq<Query>)
      modifies this
      ensures |Columns(calendar)| == |DayRecords(fetch, mtype, pages, calendar)|
      ensures df == BuildFrame(names, Columns(calendar), DayRecords(fetch, mtype, pages, calendar))
      ensures queries == FetchPlan(pages, calendar, old(curIteration))
      ensures curIteration == old(curIteration) + |queries|
      ensures curDate == if calendar == [] then old(curDate) else Some(calendar[|calendar| - 1])
      ensures page == if queries == [] then old(page) else |pages| - 1
      ensures maxIterations == old(maxIterations) && pageCount == old(pageCount)
    {
      df, queries := EmptyFrame(names), [];
      ghost var base := curIteration;
      ghost var columns: seq<Date>, records: seq<map<string, int>> := [], [];
      var i := 0;
      while i < |calendar|
        invariant Walked(names, fetch, mtype, pages, calendar, base, i, columns, records, df, queries)
        invariant curIteration == base + |queries|
        invariant curDate == if i == 0 then old(curDate) else Some(calendar[i - 1])
        invariant page == if queries == [] then old(page) else |pages| - 1
        invariant maxIterations == old(maxIterations) && pageCount == old(pageCount)
      {
        df, columns, records, queries := VisitDay(names, calendar, i, pages, mtype, fetch, base, columns, records, df, queries);
        i := i + 1;
      }
      WalkDone(names, fetch, mtype, pages, calendar, base, columns, records, df, queries);
    }

    /**
      The progress counters at the end of a run over `start..end` whose
      requests are `queries`, from counters `iteration0`, `date0`, `page0`.
     */
    ghost predicate Finished(pageTotal: nat, start: Date, end: Date, queries: seq<Query>, pages: seq<seq<IdValue>>,
                             iteration0: int, date0: Option<Date>, page0: int)
      reads this
    {
      Counters(pageTotal, start, end, queries, pages, iteration0, date0, page0, curIteration, maxIterations, curDate, page, pageCount)
    }

    /** Before the day loop: the IDs are split into pages and the progress total is set. */
    method StartRun(ids: IdMap, order: seq<string>, start: Date, end: Date) returns (pages: seq<seq<IdValue>>)
      requires IsOrder(order, ids.Keys)
      modifies this
      ensures pages == Pages(ids, order) && pageCount == PageCount(|ids|) == |pages|
      ensures maxIterations == MaxIterations(start, end, pageCount)
      ensures curIteration == old(curIteration) && curDate == old(curDate) && page == old(page)
    {
      var values := ValuesInOrder(ids, order);
      pages := Chunked(values, PAGE_LIMIT);
      assert pages == Pages(ids, order);
      pageCount := PageCount(|ids|);
      maxIterations := MaxIterations(start, end, pageCount);
    }

    /** The run once the IDs are resolved: paging, the day loop, `fillna(0)` and `sort_index()`. */
    method Tabulate(ids: IdMap, order: seq<string>, start: Date, end: Date, mtype: string, fetch: Fetcher)
      returns (table: Table, ghost queries: seq<Query>)
      requires IsOrder(order, ids.Keys)
      modifies this
      ensures Tabulated(table, ids, order, start, end, mtype, fetch)
      ensures Finished(PageCount(|ids|), start, end, queries, Pages(ids, order), old(curIteration), old(curDate), old(page))
    {
      var pages := StartRun(ids, order, start, end);
      var calendar := DateRange(start, end + 1);
      var df;
      df, queries := FetchCalendar(ids.Keys, calendar, pages, mtype, fetch);
      curIteration := maxIterations;
      RunCounters(pages, start, end, queries, old(curIteration), old(curDate), old(page), maxIterations, curDate, page, pageCount);
      var cells := FillNa(df);
      var rows := SortIndex(df.index);
      table := Table(rows, df.columns, cells);
      assert Tabulated(table, ids, order, start, end, mtype, fetch) by {
        FinishTable(ids, order, start, end, mtype, fetch, df, rows);
      }
    }

    /**
      `get_metrics(users, start, end, metric_type)`. The ID cache as loaded
      (`None` if unreadable), the ID lookup and the leaderboard request are
      parameters; `written` is what is saved to the cache. `order` is the
      iteration order of the resolved IDs and `queries` the page requests made.
     */
    method GetMetrics(users: set<string>, start: Date, end: Date, metricType: string,
                      file: Option<IdMap>, lookup: Lookup, fetch: Fetcher)
      returns (result: Result<Table, MetricsError>, written: Option<IdMap>, order: seq<string>, ghost queries: seq<Query>)
      modifies this
      ensures MetricType(metricType).None? ==>
        && result == Failure(UnknownMetricType(metricType))
        && written == None && queries == []
        && curIteration == old(curIteration) && maxIterations == old(maxIterations)
        && curDate == old(curDate) && page == old(page) && pageCount == old(pageCount)
      ensures MetricType(metricType).Some? ==>
        var resolved := Resolve(users, file, true, lookup);
        && written == resolved.written
        && IsOrder(order, resolved.ids.Keys)
        && result.Success?
        && Tabulated(result.value, resolved.ids, order, start, end, MetricType(metricType).value, fetch)
        && Finished(PageCount(|resolved.ids|), start, end, queries, Pages(resolved.ids, order),
                    old(curIteration), old(curDate), old(page))
    {
      var mtype := MetricType(metricType);
      if mtype.None? {
        return Failure(UnknownMetricType(metricType)), None, [], [];
      }
      var ids: IdMap;
      ghost var calls;
      ids, written, calls := GetUserIdsWithCaching(users, file, true, lookup);
      order := DictOrder(ids.Keys);
      var table;
      table, queries := Tabulate(ids, order, start, end, mtype.value, fetch);
      result := Success(table);
    }
  }

  /** `ceil(n / 50)` pages of fifty. */
  lemma {:induction false} ChunkedCount<T>(s: seq<T>)
    ensures |Chunked(s, PAGE_LIMIT)| == PageCount(|s|)
    decreases |s|
  {
    if |s| > PAGE_LIMIT {
      ChunkedCount(s[PAGE_LIMIT..]);
    }
  }
}
