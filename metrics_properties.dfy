/**
  What a run of `get_metrics` promises, stated over the functions that
  specify it: the weekday rule and its windows, the columns, the paging and
  the progress trace, last-write-wins merging, and the shape of the table.
 */
module MetricsProperties {
  import opened Wrappers
  import opened Ordering
  import opened Utils
  import opened UserIds
  import opened Metrics

  // ---------------------------------------------------------------------------
  // Query windows.

  predicate InWindow(x: Date, w: Window) {
    w.start <= x <= w.end
  }

  /** Monday reaches back a day, Friday forward a day, Tuesday to Thursday cover their own day, a weekend is skipped. */
  lemma WindowRule(d: Date)
    ensures Weekday(d) == 0 ==> QueryWindow(d) == Some(Window(d - 1, d))
    ensures Weekday(d) == 4 ==> QueryWindow(d) == Some(Window(d, d + 1))
    ensures 1 <= Weekday(d) <= 3 ==> QueryWindow(d) == Some(Window(d, d))
    ensures QueryWindow(d).None? <==> Weekday(d) >= 5
    ensures QueryWindow(d).Some? ==> InWindow(d, QueryWindow(d).value)
  {
  }

  /** The weekday whose query covers a calendar day: a Saturday goes to the Friday before, a Sunday to the Monday after. */
  function Owner(x: Date): Date {
    if Weekday(x) == 5 then x - 1 else if Weekday(x) == 6 then x + 1 else x
  }

  /**
    The windows of the queried days partition the calendar: every day lies
    in the window of exactly one queried day, its `Owner`. So a weekend's
    activity is counted once, in the adjacent weekday's column.
   */
  lemma WindowsPartition(x: Date, d: Date)
    ensures QueryWindow(Owner(x)).Some? && InWindow(x, QueryWindow(Owner(x)).value)
    ensures QueryWindow(d).Some? && InWindow(x, QueryWindow(d).value) ==> d == Owner(x)
  {
    WeekdayNext(x - 1);
    WeekdayNext(x);
  }

  // ---------------------------------------------------------------------------
  // Columns.

  /** A day is a column exactly when it is a weekday of the walked days. */
  lemma {:induction false} ColumnsMembers(days: seq<Date>, x: Date)
    ensures x in Columns(days) <==> x in days && Weekday(x) < 5
  {
    if days != [] {
      var prefix := days[..|days| - 1];
      ColumnsMembers(prefix, x);
      assert days == prefix + [days[|days| - 1]];
    }
  }

  /** A subsequence of a chronological walk is chronological. */
  lemma {:induction false} ColumnsIncreasing(days: seq<Date>)
    requires forall i, j :: 0 <= i < j < |days| ==> days[i] < days[j]
    ensures forall i, j :: 0 <= i < j < |Columns(days)| ==> Columns(days)[i] < Columns(days)[j]
  {
    if days != [] {
      var prefix := days[..|days| - 1];
      ColumnsIncreasing(prefix);
      var cols := Columns(days);
      forall i, j | 0 <= i < j < |cols|
        ensures cols[i] < cols[j]
      {
        var pcols := Columns(prefix);
        if QueryWindow(days[|days| - 1]).Some? && j == |cols| - 1 {
          ColumnsMembers(prefix, cols[i]);
          assert cols[i] == pcols[i];
          assert cols[i] in prefix;
        }
      }
    }
  }

  /** The table's columns are the weekdays from `start` to `end` inclusive, in chronological order. */
  lemma CalendarColumns(start: Date, end: Date)
    ensures forall x :: x in Columns(DateRange(start, end + 1)) <==> start <= x <= end && Weekday(x) < 5
    ensures var cols := Columns(DateRange(start, end + 1));
      forall i, j :: 0 <= i < j < |cols| ==> cols[i] < cols[j]
  {
    var calendar := DateRange(start, end + 1);
    forall x
      ensures x in Columns(calendar) <==> start <= x <= end && Weekday(x) < 5
    {
      ColumnsMembers(calendar, x);
      DateRangeMembers(start, end + 1, x);
      assert x in calendar <==> start <= x <= end;
    }
    ColumnsIncreasing(DateRange(start, end + 1));
  }

  /** The record of column `k` is the merge over the pages of that column's own window. */
  lemma {:induction false} DayRecordsAt(fetch: Fetcher, mtype: string, pages: seq<seq<IdValue>>, days: seq<Date>, k: nat)
    requires k < |Columns(days)|
    ensures |DayRecords(fetch, mtype, pages, days)| == |Columns(days)|
    ensures QueryWindow(Columns(days)[k]).Some?
    ensures DayRecords(fetch, mtype, pages, days)[k] == DayRecord(fetch, mtype, QueryWindow(Columns(days)[k]).value, pages)
  {
    ColumnsMatchRecords(fetch, mtype, pages, days);
    var prefix := days[..|days| - 1];
    ColumnsMatchRecords(fetch, mtype, pages, prefix);
    if k < |Columns(prefix)| {
      DayRecordsAt(fetch, mtype, pages, prefix, k);
    }
  }

  // ---------------------------------------------------------------------------
  // Pages.

  /** `ceil(n / 50)`: the fewest pages of fifty that hold `n` IDs. */
  lemma PageCountCeiling(n: nat)
    ensures PageCount(n) * PAGE_LIMIT >= n
    ensures PageCount(n) > 0 ==> (PageCount(n) - 1) * PAGE_LIMIT < n
    ensures PageCount(n) == 0 <==> n == 0
  {
  }

  /** The pages of a run hold the IDs in order, at most fifty each, and only the last one short. */
  lemma PagesShape(ids: IdMap, order: seq<string>)
    requires IsOrder(order, ids.Keys)
    ensures var pages := Pages(ids, order);
      && Flatten(pages) == ValuesInOrder(ids, order)
      && |pages| == PageCount(|ids|)
      && (forall i :: 0 <= i < |pages| ==> 0 < |pages[i]| <= PAGE_LIMIT)
      && (forall i :: 0 <= i < |pages| - 1 ==> |pages[i]| == PAGE_LIMIT)
  {
  }

  // ---------------------------------------------------------------------------
  // The progress trace.

  /**
    Request `k * |pages| + j` of a run is page `j` of column `k`: while it runs
    `cur_date` is the column's day, `page` is `j`, and `cur_iteration` has
    counted every request so far, this one included.
   */
  lemma {:induction false} FetchPlanAt(pages: seq<seq<IdValue>>, days: seq<Date>, base: int, k: nat, j: nat)
    requires k < |Columns(days)| && j < |pages|
    ensures |FetchPlan(pages, days, base)| == |Columns(days)| * |pages|
    ensures k * |pages| + j < |FetchPlan(pages, days, base)|
    ensures QueryWindow(Columns(days)[k]).Some?
    ensures FetchPlan(pages, days, base)[k * |pages| + j] ==
      Query(Some(Columns(days)[k]), j, base + k * |pages| + j + 1, QueryWindow(Columns(days)[k]).value, pages[j])
  {
    var prefix := days[..|days| - 1];
    FetchPlanLength(pages, prefix, base);
    FetchPlanLength(pages, days, base);
    var m := |Columns(prefix)|;
    MulStep(k, m, |pages|, j);
    if k < m {
      FetchPlanAt(pages, prefix, base, k, j);
    }
  }

  /** `page_count` requests per weekday, none on a weekend. */
  lemma {:induction false} FetchPlanLength(pages: seq<seq<IdValue>>, days: seq<Date>, base: int)
    ensures |FetchPlan(pages, days, base)| == |Columns(days)| * |pages|
  {
    if days != [] {
      var prefix := days[..|days| - 1];
      FetchPlanLength(pages, prefix, base);
      var c, p := |Columns(prefix)|, |pages|;
      var before := FetchPlan(pages, prefix, base);
      match QueryWindow(days[|days| - 1])
      case Some(w) =>
        assert FetchPlan(pages, days, base) == before + DayPlan(days[|days| - 1], w, pages, base + |before|);
        assert |Columns(days)| == c + 1;
        MulSucc(c, p);
      case None =>
        assert FetchPlan(pages, days, base) == before;
        assert Columns(days) == Columns(prefix);
    }
  }

  lemma MulSucc(c: nat, p: nat)
    ensures (c + 1) * p == c * p + p
  {
  }

  lemma MulStep(k: nat, m: nat, p: nat, j: nat)
    requires k <= m && j < p
    ensures k < m ==> k * p + j < m * p
    ensures k == m ==> k * p + j - m * p == j
  {
    if k < m {
      assert (k + 1) * p <= m * p;
    }
  }

  /** The step counter an observer polls only grows: each request counts one more than the one before. */
  lemma {:induction false} FetchPlanCounts(pages: seq<seq<IdValue>>, days: seq<Date>, base: int, i: nat)
    requires i < |FetchPlan(pages, days, base)|
    ensures FetchPlan(pages, days, base)[i].iteration == base + i + 1
  {
    var prefix := days[..|days| - 1];
    var before := FetchPlan(pages, prefix, base);
    if i < |before| {
      FetchPlanCounts(pages, prefix, base, i);
    }
  }

  /**
    A run whose counter starts at 0 ends with `max_iterations = (end - start)
    * page_count` as written, which is not the number of requests made: over
    a single Tuesday with one page, one request is made and `max_iterations`
    is 0.
   */
  lemma MaxIterationsIsNotTheRequestCount(d: Date, pages: seq<seq<IdValue>>)
    requires Weekday(d) == 1 && |pages| == 1
    ensures |FetchPlan(pages, DateRange(d, d + 1), 0)| == 1
    ensures MaxIterations(d, d, |pages|) == 0
  {
    var calendar := DateRange(d, d + 1);
    assert calendar == [d];
    assert calendar[..0] == [];
    FetchPlanLength(pages, calendar, 0);
    assert Columns(calendar) == [d];
  }

  // ---------------------------------------------------------------------------
  // Merging.

  /** The record of the name `n` that a response keeps: its last one. */
  lemma {:induction false} ParseRecordsLastWins(records: seq<Record>, n: string)
    requires n in ParseRecords(records)
    ensures exists i ::
      && 0 <= i < |records| && records[i].name == n
      && ParseRecords(records)[n] == records[i].completedTasks
      && (forall j :: i < j < |records| ==> records[j].name != n)
  {
    var last := records[|records| - 1];
    var prefix := records[..|records| - 1];
    if last.name != n {
      ParseRecordsLastWins(prefix, n);
      var i :| 0 <= i < |prefix| && prefix[i].name == n
        && ParseRecords(prefix)[n] == prefix[i].completedTasks
        && forall j :: i < j < |prefix| ==> prefix[j].name != n;
      assert records[i] == prefix[i];
      assert forall j :: i < j < |records| ==> records[j].name != n by {
        forall j | i < j < |records|
          ensures records[j].name != n
        {
          if j < |prefix| {
            assert records[j] == prefix[j];
          }
        }
      }
    } else {
      assert records[|records| - 1].name == n;
    }
  }

  /** The page `j` of a day answered, with the map `tasks`. */
  ghost predicate Answered(fetch: Fetcher, mtype: string, window: Window, pages: seq<seq<IdValue>>, j: int, n: string) {
    0 <= j < |pages| && GetUserPage(fetch, pages[j], mtype, window).Some? && n in GetUserPage(fetch, pages[j], mtype, window).value
  }

  /** No page that answered with this window mentions `n`. */
  ghost predicate Unmentioned(fetch: Fetcher, mtype: string, window: Window, pages: seq<seq<IdValue>>, n: string) {
    forall j :: !Answered(fetch, mtype, window, pages, j, n)
  }

  /** A name is in a day's record exactly when some page that answered mentions it. */
  lemma {:induction false} DayRecordMembers(fetch: Fetcher, mtype: string, window: Window, pages: seq<seq<IdValue>>, n: string)
    ensures n in DayRecord(fetch, mtype, window, pages) <==> exists j :: Answered(fetch, mtype, window, pages, j, n)
  {
    if pages != [] {
      var m := |pages| - 1;
      var prefix := pages[..m];
      DayRecordMembers(fetch, mtype, window, prefix, n);
      forall j | 0 <= j < m
        ensures Answered(fetch, mtype, window, prefix, j, n) == Answered(fetch, mtype, window, pages, j, n)
      {
        assert prefix[j] == pages[j];
      }
      var merged := DayRecord(fetch, mtype, window, prefix);
      match GetUserPage(fetch, pages[m], mtype, window)
      case None =>
        assert DayRecord(fetch, mtype, window, pages) == merged;
        assert !Answered(fetch, mtype, window, pages, m, n);
      case Some(tasks) =>
        assert DayRecord(fetch, mtype, window, pages) == merged + tasks;
        assert n in tasks <==> Answered(fetch, mtype, window, pages, m, n);
    }
  }

  /**
    A name in a day's record carries the count of the last page that
    answered with it: a later page overrides an earlier one, and a page that
    failed contributes nothing.
   */
  lemma {:induction false} DayRecordLastWins(fetch: Fetcher, mtype: string, window: Window, pages: seq<seq<IdValue>>, n: string)
    requires n in DayRecord(fetch, mtype, window, pages)
    ensures exists j ::
      && Answered(fetch, mtype, window, pages, j, n)
      && DayRecord(fetch, mtype, window, pages)[n] == GetUserPage(fetch, pages[j], mtype, window).value[n]
      && (forall j' :: j < j' < |pages| ==> !Answered(fetch, mtype, window, pages, j', n))
  {
    var m := |pages| - 1;
    var prefix := pages[..m];
    var merged := DayRecord(fetch, mtype, window, prefix);
    var answer := GetUserPage(fetch, pages[m], mtype, window);
    if answer.Some? && n in answer.value {
      assert DayRecord(fetch, mtype, window, pages) == merged + answer.value;
      assert Answered(fetch, mtype, window, pages, m, n);
    } else {
      assert !Answered(fetch, mtype, window, pages, m, n);
      assert n in merged && DayRecord(fetch, mtype, window, pages)[n] == merged[n];
      DayRecordLastWins(fetch, mtype, window, prefix, n);
      var j :| && Answered(fetch, mtype, window, prefix, j, n)
        && merged[n] == GetUserPage(fetch, prefix[j], mtype, window).value[n]
        && (forall j' :: j < j' < |prefix| ==> !Answered(fetch, mtype, window, prefix, j', n));
      LastAnswerLifts(fetch, mtype, window, prefix, pages, n, j);
    }
  }

  /** The last page of `prefix` to answer with `n` is still the last once a page that does not is appended. */
  lemma LastAnswerLifts(fetch: Fetcher, mtype: string, window: Window, prefix: seq<seq<IdValue>>, pages: seq<seq<IdValue>>, n: string, j: int)
    requires pages != [] && prefix == pages[..|pages| - 1] && !Answered(fetch, mtype, window, pages, |pages| - 1, n)
    requires Answered(fetch, mtype, window, prefix, j, n)
    requires forall j' :: j < j' < |prefix| ==> !Answered(fetch, mtype, window, prefix, j', n)
    ensures Answered(fetch, mtype, window, pages, j, n) && prefix[j] == pages[j]
    ensures forall j' :: j < j' < |pages| ==> !Answered(fetch, mtype, window, pages, j', n)
  {
    assert prefix[j] == pages[j];
    forall j' | j < j' < |pages|
      ensures !Answered(fetch, mtype, window, pages, j', n)
    {
      if j' < |prefix| {
        assert prefix[j'] == pages[j'];
        assert !Answered(fetch, mtype, window, prefix, j', n);
      }
    }
  }

  /** A day on which every page failed has an empty record, hence a column of zeros. */
  lemma {:induction false} DayRecordAllFailed(fetch: Fetcher, mtype: string, window: Window, pages: seq<seq<IdValue>>)
    requires forall j :: 0 <= j < |pages| ==> GetUserPage(fetch, pages[j], mtype, window).None?
    ensures DayRecord(fetch, mtype, window, pages) == map[]
  {
    if pages != [] {
      var prefix := pages[..|pages| - 1];
      assert forall j :: 0 <= j < |prefix| ==> prefix[j] == pages[j];
      DayRecordAllFailed(fetch, mtype, window, prefix);
    }
  }

  // ---------------------------------------------------------------------------
  // The table.

  /**
    The table's rows are the resolved users and every name a response
    brought (the outer join), and its cell of row `n`, column `k` is what the
    last answering page reported for `n` in that column's window, or 0.
   */
  lemma TabulatedCells(table: Table, ids: IdMap, order: seq<string>, start: Date, end: Date, mtype: string, fetch: Fetcher,
                       n: string, k: nat)
    requires IsOrder(order, ids.Keys) && Tabulated(table, ids, order, start, end, mtype, fetch)
    requires n in table.cells && k < |table.columns|
    ensures QueryWindow(table.columns[k]).Some?
    ensures |table.cells[n]| == |table.columns|
    ensures table.cells[n][k] == CountOr0(DayRecord(fetch, mtype, QueryWindow(table.columns[k]).value, Pages(ids, order)), n)
  {
    var calendar := DateRange(start, end + 1);
    DayRecordsAt(fetch, mtype, Pages(ids, order), calendar, k);
  }

  /** A row exists for exactly the resolved users and the names some column's record holds. */
  lemma TabulatedRows(table: Table, ids: IdMap, order: seq<string>, start: Date, end: Date, mtype: string, fetch: Fetcher, n: string)
    requires IsOrder(order, ids.Keys) && Tabulated(table, ids, order, start, end, mtype, fetch)
    ensures n in table.rows <==> n in ids || n in NamesIn(DayRecords(fetch, mtype, Pages(ids, order), DateRange(start, end + 1)))
  {
  }

  /** A resolved user that no answering page mentions gets a row of zeros. */
  lemma TabulatedZeroFill(table: Table, ids: IdMap, order: seq<string>, start: Date, end: Date, mtype: string, fetch: Fetcher, n: string)
    requires IsOrder(order, ids.Keys) && Tabulated(table, ids, order, start, end, mtype, fetch)
    requires n in ids
    requires forall k :: 0 <= k < |table.columns| && QueryWindow(table.columns[k]).Some? ==>
      Unmentioned(fetch, mtype, QueryWindow(table.columns[k]).value, Pages(ids, order), n)
    ensures n in table.rows && n in table.cells
    ensures |table.cells[n]| == |table.columns|
    ensures forall k :: 0 <= k < |table.columns| ==> table.cells[n][k] == 0
  {
    ColumnsMatchRecords(fetch, mtype, Pages(ids, order), DateRange(start, end + 1));
    forall k | 0 <= k < |table.columns|
      ensures table.cells[n][k] == 0
    {
      TabulatedCells(table, ids, order, start, end, mtype, fetch, n, k);
      DayRecordMembers(fetch, mtype, QueryWindow(table.columns[k]).value, Pages(ids, order), n);
    }
  }

  /** The rows are sorted, so two tables of the same run agree: the output is deterministic. */
  lemma TabulatedDeterministic(t1: Table, t2: Table, ids: IdMap, order: seq<string>, start: Date, end: Date, mtype: string, fetch: Fetcher)
    requires IsOrder(order, ids.Keys)
    requires Tabulated(t1, ids, order, start, end, mtype, fetch) && Tabulated(t2, ids, order, start, end, mtype, fetch)
    ensures t1 == t2
  {
    SortedUnique(t1.rows, t2.rows);
  }

  /** A Saturday or a Sunday is never a column. */
  lemma TabulatedNoWeekend(table: Table, ids: IdMap, order: seq<string>, start: Date, end: Date, mtype: string, fetch: Fetcher)
    requires IsOrder(order, ids.Keys) && Tabulated(table, ids, order, start, end, mtype, fetch)
    ensures forall k :: 0 <= k < |table.columns| ==> Weekday(table.columns[k]) < 5
  {
    CalendarColumns(start, end);
  }

  // ---------------------------------------------------------------------------
  // A worked run.

  /** One page's merged record of a day whose only answer is `answer`. */
  lemma OnePageRecord(fetch: Fetcher, mtype: string, window: Window, pages: seq<seq<IdValue>>, answer: seq<Record>)
    requires |pages| == 1 && fetch(pages[0], mtype, window) == Some(answer)
    ensures DayRecord(fetch, mtype, window, pages) == ParseRecords(answer)
  {
    assert pages[..0] == [];
  }

  /** Tuesday and Wednesday 2024-01-02 and 2024-01-03: two columns, each queried for its own day. */
  lemma ScenarioColumns(start: Date)
    requires start == 738887
    ensures Columns(DateRange(start, start + 2)) == [start, start + 1]
    ensures QueryWindow(start) == Some(Window(start, start))
    ensures QueryWindow(start + 1) == Some(Window(start + 1, start + 1))
  {
    var calendar := DateRange(start, start + 2);
    assert calendar == [start, start + 1];
    assert Weekday(start) == 1 && Weekday(start + 1) == 2;
    assert calendar[..0] == [] && calendar[..2] == calendar;
    ColumnsStep(calendar, 0);
    ColumnsStep(calendar, 1);
  }

  /** The day records of the scenario: alice's 3 on the first day, nothing on the second. */
  lemma ScenarioRecords(pages: seq<seq<IdValue>>, mtype: string, fetch: Fetcher, start: Date, second: Date)
    requires start == 738887 && second == start + 1 && |pages| == 1
    requires forall page :: fetch(page, mtype, Window(start, start)) == Some([Record("alice", 3)])
    requires forall page :: fetch(page, mtype, Window(second, second)) == Some([])
    ensures DayRecords(fetch, mtype, pages, DateRange(start, start + 2)) == [map["alice" := 3], map[]]
  {
    ScenarioColumns(start);
    var calendar := DateRange(start, start + 2);
    assert calendar == [start, start + 1];
    assert calendar[..0] == [] && calendar[..2] == calendar;
    DayRecordsStep(fetch, mtype, pages, calendar, 0);
    DayRecordsStep(fetch, mtype, pages, calendar, 1);
    assert [Record("alice", 3)][..0] == [];
    OnePageRecord(fetch, mtype, Window(start, start), pages, [Record("alice", 3)]);
    OnePageRecord(fetch, mtype, Window(second, second), pages, []);
  }

  /** The cells of the scenario's two users over its two records. */
  lemma ScenarioCells(users: set<string>)
    requires users == {"alice", "bob"}
    ensures ExpectedCells(users, [map["alice" := 3], map[]]) == map["alice" := [3, 0], "bob" := [0, 0]]
  {
    var records: seq<map<string, int>> := [map["alice" := 3], map[]];
    assert NamesIn(records) == {"alice"};
    var cells := ExpectedCells(users, records);
    assert cells.Keys == {"alice", "bob"};
    assert cells["alice"] == [3, 0];
    assert cells["bob"] == [0, 0];
  }

  /**
    Users alice and bob, both resolved, over Tuesday 2024-01-02 (ordinal
    738887) and Wednesday 2024-01-03, with the leaderboard reporting 3 tasks
    for alice on the first day and nothing on the second: the table has the
    rows alice and bob, the two days as columns, alice's counts 3 and 0 and
    bob's 0 and 0.
   */
  lemma TwoUserScenario(table: Table, ids: IdMap, order: seq<string>, mtype: string, fetch: Fetcher, start: Date, second: Date)
    requires start == 738887 && second == start + 1
    requires ids.Keys == {"alice", "bob"} && IsOrder(order, ids.Keys)
    requires forall page :: fetch(page, mtype, Window(start, start)) == Some([Record("alice", 3)])
    requires forall page :: fetch(page, mtype, Window(second, second)) == Some([])
    requires Tabulated(table, ids, order, start, second, mtype, fetch)
    ensures table.columns == [start, second]
    ensures table.rows == ["alice", "bob"]
    ensures table.cells == map["alice" := [3, 0], "bob" := [0, 0]]
  {
    var pages := Pages(ids, order);
    assert |pages| == 1 by {
      assert |ids| == 2;
    }
    assert table.columns == [start, second] by {
      ScenarioColumns(start);
    }
    assert table.cells == map["alice" := [3, 0], "bob" := [0, 0]] by {
      ScenarioRecords(pages, mtype, fetch, start, second);
      ScenarioCells(ids.Keys);
    }
    assert table.rows == ["alice", "bob"] by {
      assert Below("alice", "bob");
      SortedUnique(table.rows, ["alice", "bob"]);
    }
  }
}
