/** The two maintenance endpoints of backend/src/index.ts that feed the
    notification bell: GET /api/maintenance/summary (four SUM(CASE) columns
    over the whole devices table) and GET /api/maintenance/due (the due
    window, the optional filters, the CASE status label, the ORDER BY and
    LIMIT/OFFSET). `today` is a parameter standing for the server clock. */
module MaintenanceApi {
  import opened Common
  import opened DueStatus
  import opened BackendTables

  /** The summary's four columns, each a separate SUM(CASE WHEN ...). */
  datatype Column = NoDateColumn | OverdueColumn | DueTodayColumn | DueSoonColumn

  /** The WHEN condition of each column, as the query writes it (each column
      repeats the not-null-and-not-blank test instead of relying on order). */
  predicate InColumn(d: MaintDate, c: Column, today: int, days: int)
  {
    match c
    case NoDateColumn => SqlNoDate(d)
    case OverdueColumn => !SqlNoDate(d) && d.day < today
    case DueTodayColumn => !SqlNoDate(d) && d.day == today
    case DueSoonColumn => !SqlNoDate(d) && d.day > today && d.day <= today + days
  }

  /** The status the CASE label gives to the rows a column counts. */
  function ColumnStatus(c: Column): Status
  {
    match c
    case NoDateColumn => NoDate
    case OverdueColumn => Overdue
    case DueTodayColumn => DueToday
    case DueSoonColumn => DueSoon
  }

  /** `SUM(CASE WHEN cond THEN 1 ELSE 0 END)`, with `|| 0` for the empty table. */
  function ColumnCount(rows: seq<DeviceRow>, c: Column, today: int, days: int): (n: nat)
    ensures n <= |rows|
  {
    if rows == [] then 0
    else (if InColumn(rows[0].nextDate, c, today, days) then 1 else 0) + ColumnCount(rows[1..], c, today, days)
  }

  /** The number of rows the CASE expression labels with status s. */
  function StatusCount(rows: seq<DeviceRow>, s: Status, today: int, days: int): (n: nat)
    ensures n <= |rows|
  {
    if rows == [] then 0
    else (if Classify(rows[0].nextDate, today, days) == s then 1 else 0) + StatusCount(rows[1..], s, today, days)
  }

  /** Each summary column counts exactly the rows the due list labels with
      the corresponding status. */
  lemma {:induction false} ColumnCountIsStatusCount(rows: seq<DeviceRow>, c: Column, today: int, days: int)
    ensures ColumnCount(rows, c, today, days) == StatusCount(rows, ColumnStatus(c), today, days)
  {
    if rows != [] {
      ColumnCountIsStatusCount(rows[1..], c, today, days);
    }
  }

  /** The five status counts partition the table. */
  lemma {:induction false} StatusCountsPartition(rows: seq<DeviceRow>, today: int, days: int)
    ensures StatusCount(rows, NoDate, today, days) + StatusCount(rows, Overdue, today, days)
            + StatusCount(rows, DueToday, today, days) + StatusCount(rows, DueSoon, today, days)
            + StatusCount(rows, NotDue, today, days) == |rows|
  {
    if rows != [] {
      StatusCountsPartition(rows[1..], today, days);
    }
  }

  datatype Summary = Summary(overdue: nat, dueToday: nat, dueSoon: nat, noDate: nat, days: int, totalDue: nat)

  /** GET /api/maintenance/summary?days=N. */
  function Summarize(rows: seq<DeviceRow>, today: int, days: int): (r: Summary)
    ensures r.days == ClampDays(days)
    ensures r.noDate == StatusCount(rows, NoDate, today, r.days)
    ensures r.overdue == StatusCount(rows, Overdue, today, r.days)
    ensures r.dueToday == StatusCount(rows, DueToday, today, r.days)
    ensures r.dueSoon == StatusCount(rows, DueSoon, today, r.days)
    ensures r.totalDue == r.overdue + r.dueToday + r.dueSoon
    ensures r.noDate + r.totalDue + StatusCount(rows, NotDue, today, r.days) == |rows|
  {
    var w := ClampDays(days);
    ColumnCountIsStatusCount(rows, NoDateColumn, today, w);
    ColumnCountIsStatusCount(rows, OverdueColumn, today, w);
    ColumnCountIsStatusCount(rows, DueTodayColumn, today, w);
    ColumnCountIsStatusCount(rows, DueSoonColumn, today, w);
    StatusCountsPartition(rows, today, w);
    var o := ColumnCount(rows, OverdueColumn, today, w);
    var t := ColumnCount(rows, DueTodayColumn, today, w);
    var s := ColumnCount(rows, DueSoonColumn, today, w);
    Summary(o, t, s, ColumnCount(rows, NoDateColumn, today, w), w, o + t + s)
  }

  /** The query parameters of GET /api/maintenance/due after parsing:
      departmentId and deviceTypeId are None when the parameter is absent or
      empty, status is the trimmed parameter, includeNoDate is `=== '1'`. */
  datatype DueQuery = DueQuery(
    days: int, limit: int, offset: int,
    departmentId: Option<nat>, deviceTypeId: Option<nat>,
    status: string, includeNoDate: bool)

  /** The base condition: a real date on or before today + days, or, when
      asked for, no date at all. */
  predicate InDueWindow(d: MaintDate, today: int, days: int, includeNoDate: bool)
  {
    (includeNoDate && SqlNoDate(d)) || (!SqlNoDate(d) && d.day <= today + days)
  }

  /** The whole WHERE clause. */
  predicate DueMatches(d: DeviceRow, q: DueQuery, today: int, days: int)
  {
    && InDueWindow(d.nextDate, today, days, q.includeNoDate)
    && (q.departmentId.None? || d.departmentId == q.departmentId)
    && (q.deviceTypeId.None? || d.deviceTypeId == q.deviceTypeId)
    && (q.status == [] || StatusName(Classify(d.nextDate, today, days)) == q.status)
  }

  /** The rows the WHERE clause keeps, in table order. */
  function DueRows(rows: seq<DeviceRow>, q: DueQuery, today: int, days: int): (r: seq<DeviceRow>)
    ensures |r| <= |rows|
    ensures forall d :: d in r <==> d in rows && DueMatches(d, q, today, days)
    ensures forall d :: multiset(r)[d] == if DueMatches(d, q, today, days) then multiset(rows)[d] else 0
    ensures multiset(r) <= multiset(rows)
  {
    if rows == [] then []
    else
      assert rows == [rows[0]] + rows[1..];
      if DueMatches(rows[0], q, today, days) then [rows[0]] + DueRows(rows[1..], q, today, days)
      else DueRows(rows[1..], q, today, days)
  }

  /** The ORDER BY: rank first, then `julianday(today) - julianday(date)`
      descending, that is the earlier date first. Rows without a date share
      rank 3 and have no second key, so they tie. */
  predicate DueOrder(a: DeviceRow, b: DeviceRow, today: int)
  {
    var ra := SqlRank(a.nextDate, today);
    var rb := SqlRank(b.nextDate, today);
    ra < rb || (ra == rb && (a.nextDate.On? && b.nextDate.On? ==> a.nextDate.day <= b.nextDate.day))
  }

  lemma DueOrderTotal(a: DeviceRow, b: DeviceRow, today: int)
    ensures DueOrder(a, b, today) || DueOrder(b, a, today)
  {
  }

  lemma DueOrderTransitive(a: DeviceRow, b: DeviceRow, c: DeviceRow, today: int)
    requires DueOrder(a, b, today) && DueOrder(b, c, today)
    ensures DueOrder(a, c, today)
  {
  }

  predicate SortedDue(s: seq<DeviceRow>, today: int)
  {
    forall i, j :: 0 <= i < j < |s| ==> DueOrder(s[i], s[j], today)
  }

  /** Prepending a row that may precede every row keeps the order. */
  lemma PrependSorted(x: DeviceRow, s: seq<DeviceRow>, today: int)
    requires SortedDue(s, today)
    requires forall y | y in s :: DueOrder(x, y, today)
    ensures SortedDue([x] + s, today)
  {
    forall i, j | 0 <= i < j < |[x] + s| ensures DueOrder(([x] + s)[i], ([x] + s)[j], today) {
      assert ([x] + s)[j] == s[j - 1];
      if i > 0 {
        assert ([x] + s)[i] == s[i - 1];
      } else {
        assert s[j - 1] in s;
      }
    }
  }

  /** A row that may precede the first row of a sorted list (if any) may
      precede every row of it. */
  lemma InsertDueBelow(x: DeviceRow, s: seq<DeviceRow>, today: int)
    requires SortedDue(s, today) && (s == [] || DueOrder(x, s[0], today))
    ensures forall y | y in s :: DueOrder(x, y, today)
  {
    forall y | y in s ensures DueOrder(x, y, today) {
      var j :| 0 <= j < |s| && s[j] == y;
      if j > 0 { DueOrderTransitive(x, s[0], s[j], today); }
    }
  }

  /** The first row of a sorted list may precede the tail with x inserted,
      when it may precede x. */
  lemma InsertDueHead(s: seq<DeviceRow>, x: DeviceRow, rest: seq<DeviceRow>, today: int)
    requires SortedDue(s, today) && s != [] && DueOrder(s[0], x, today)
    requires forall y :: y in rest <==> y == x || y in s[1..]
    ensures forall y | y in rest :: DueOrder(s[0], y, today)
  {
    forall y | y in rest ensures DueOrder(s[0], y, today) {
      if y != x {
        var j :| 0 <= j < |s[1..]| && s[1..][j] == y;
        assert s[j + 1] == y;
      }
    }
  }

  /** Places x before the first row it may precede. */
  function InsertDue(x: DeviceRow, s: seq<DeviceRow>, today: int): (r: seq<DeviceRow>)
    requires SortedDue(s, today)
    ensures SortedDue(r, today)
    ensures |r| == |s| + 1
    ensures forall y :: y in r <==> y == x || y in s
    ensures multiset(r) == multiset(s) + multiset{x}
  {
    if s == [] || DueOrder(x, s[0], today) then
      InsertDueBelow(x, s, today);
      PrependSorted(x, s, today);
      [x] + s
    else
      DueOrderTotal(x, s[0], today);
      var rest := InsertDue(x, s[1..], today);
      assert s == [s[0]] + s[1..];
      InsertDueHead(s, x, rest, today);
      PrependSorted(s[0], rest, today);
      [s[0]] + rest
  }

  /** The rows in ORDER BY order (ties in whatever order insertion leaves them). */
  function SortDue(s: seq<DeviceRow>, today: int): (r: seq<DeviceRow>)
    ensures SortedDue(r, today)
    ensures |r| == |s|
    ensures forall y :: y in r <==> y in s
    ensures multiset(r) == multiset(s)
  {
    if s == [] then []
    else
      assert s == [s[0]] + s[1..];
      InsertDue(s[0], SortDue(s[1..], today), today)
  }

  /** One element of `items`: the row with its CASE status and days_overdue. */
  datatype DueItem = DueItem(device: DeviceRow, status: Status, daysOverdue: Option<int>)

  function ToItems(rows: seq<DeviceRow>, today: int, days: int): (r: seq<DueItem>)
    ensures |r| == |rows|
    ensures forall i :: 0 <= i < |rows| ==> r[i].device == rows[i]
    ensures forall i :: 0 <= i < |rows| ==> r[i].status == Classify(rows[i].nextDate, today, days)
    ensures forall i :: 0 <= i < |rows| ==> r[i].daysOverdue == DaysOverdue(rows[i].nextDate, today)
    ensures forall it | it in r :: it.device in rows && it.status == Classify(it.device.nextDate, today, days)
                                   && it.daysOverdue == DaysOverdue(it.device.nextDate, today)
  {
    seq(|rows|, i requires 0 <= i < |rows| =>
      DueItem(rows[i], Classify(rows[i].nextDate, today, days), DaysOverdue(rows[i].nextDate, today)))
  }

  /** LIMIT limit OFFSET offset on rows already in order: a window of them
      that keeps their order. */
  function Window(sorted: seq<DeviceRow>, offset: nat, limit: nat, today: int): (r: seq<DeviceRow>)
    requires SortedDue(sorted, today)
    ensures SortedDue(r, today)
    ensures |r| <= limit
    ensures offset >= |sorted| ==> r == []
    ensures offset < |sorted| ==> |r| == Min(limit, |sorted| - offset)
    ensures forall i :: 0 <= i < |r| ==> r[i] == sorted[offset + i]
    ensures forall d | d in r :: d in sorted
  {
    if offset >= |sorted| then [] else sorted[offset..Min(offset + limit, |sorted|)]
  }

  /** items are the devices of `sorted` from position offset on, one by one
      and in order. */
  predicate IsDuePage(items: seq<DueItem>, sorted: seq<DeviceRow>, offset: int)
  {
    && 0 <= offset
    && (items != [] ==> offset + |items| <= |sorted|)
    && forall i :: 0 <= i < |items| ==> items[i].device == sorted[offset + i]
  }

  /** The items of one page: the LIMIT/OFFSET window of the sorted rows,
      each with its status and days_overdue. */
  function DuePage(sorted: seq<DeviceRow>, offset: nat, limit: nat, today: int, days: int): (items: seq<DueItem>)
    requires SortedDue(sorted, today)
    ensures IsDuePage(items, sorted, offset)
    ensures |items| <= limit
    ensures offset >= |sorted| ==> items == []
    ensures offset < |sorted| ==> |items| == Min(limit, |sorted| - offset)
    ensures forall it | it in items :: it.device in sorted && it.status == Classify(it.device.nextDate, today, days)
                                       && it.daysOverdue == DaysOverdue(it.device.nextDate, today)
    ensures forall i, j :: 0 <= i < j < |items| ==> DueOrder(items[i].device, items[j].device, today)
  {
    ToItems(Window(sorted, offset, limit, today), today, days)
  }

  datatype DueList = DueList(items: seq<DueItem>, total: nat, limit: int, offset: int)

  /** GET /api/maintenance/due: total counts every row the WHERE clause
      keeps; items is the LIMIT/OFFSET window of them in ORDER BY order. */
  function ListDue(rows: seq<DeviceRow>, q: DueQuery, today: int): (r: DueList)
    ensures 1 <= r.limit <= 50 && r.limit == Clamp(q.limit, 1, 50)
    ensures r.offset >= 0 && r.offset == Max(q.offset, 0)
    ensures r.total == |DueRows(rows, q, today, ClampDays(q.days))|
    ensures |r.items| <= r.limit
    ensures r.offset >= r.total ==> r.items == []
    ensures r.offset < r.total ==> |r.items| == Min(r.limit, r.total - r.offset)
    ensures forall it | it in r.items :: it.device in rows && DueMatches(it.device, q, today, ClampDays(q.days))
    ensures forall it | it in r.items ::
              it.status == Classify(it.device.nextDate, today, ClampDays(q.days))
              && it.daysOverdue == DaysOverdue(it.device.nextDate, today)
    ensures forall i, j :: 0 <= i < j < |r.items| ==> DueOrder(r.items[i].device, r.items[j].device, today)
    ensures exists s :: IsDuePage(r.items, s, r.offset)
                        && SortedDue(s, today) && multiset(s) == multiset(DueRows(rows, q, today, ClampDays(q.days)))
  {
    var days := ClampDays(q.days);
    var limit := Clamp(q.limit, 1, 50);
    var offset := Max(q.offset, 0);
    var matching := DueRows(rows, q, today, days);
    var sorted := SortDue(matching, today);
    var items := DuePage(sorted, offset, limit, today, days);
    PageOfMatches(rows, q, today, days, sorted, items, offset);
    DueList(items, |matching|, limit, offset)
  }

  /** A page of a sorted reordering of the matching rows holds only
      matching rows of the table. */
  lemma PageOfMatches(rows: seq<DeviceRow>, q: DueQuery, today: int, days: int,
                      sorted: seq<DeviceRow>, items: seq<DueItem>, offset: int)
    requires SortedDue(sorted, today) && multiset(sorted) == multiset(DueRows(rows, q, today, days))
    requires IsDuePage(items, sorted, offset)
    requires forall it | it in items :: it.device in sorted
    ensures forall it | it in items :: it.device in rows && DueMatches(it.device, q, today, days)
    ensures exists s :: IsDuePage(items, s, offset)
                        && SortedDue(s, today) && multiset(s) == multiset(DueRows(rows, q, today, days))
  {
    forall it | it in items
      ensures it.device in rows && DueMatches(it.device, q, today, days)
    {
      assert it.device in multiset(sorted);
    }
  }

  /** The due list never labels an item not_due: its window already stops at
      today + days. */
  lemma DueItemsNeverNotDue(rows: seq<DeviceRow>, q: DueQuery, today: int)
    ensures forall it | it in ListDue(rows, q, today).items :: it.status != NotDue
  {
    var r := ListDue(rows, q, today);
    forall it | it in r.items ensures it.status != NotDue {
      var i :| 0 <= i < |r.items| && r.items[i] == it;
    }
  }

  /** Asking for status=not_due, or for a name that is no status at all,
      gives an empty list with total 0. */
  lemma UnreachableStatusEmpty(rows: seq<DeviceRow>, q: DueQuery, today: int)
    requires q.status != [] && forall s: Status :: s != NotDue ==> StatusName(s) != q.status
    ensures ListDue(rows, q, today).total == 0
    ensures ListDue(rows, q, today).items == []
  {
    NothingMatches(rows, q, today, ClampDays(q.days));
  }

  lemma {:induction false} NothingMatches(rows: seq<DeviceRow>, q: DueQuery, today: int, days: int)
    requires q.status != [] && forall s: Status :: s != NotDue ==> StatusName(s) != q.status
    ensures DueRows(rows, q, today, days) == []
  {
    if rows != [] {
      NothingMatches(rows[1..], q, today, days);
    }
  }

  /** Rows without a date are listed only when include_no_date=1. */
  lemma NoDateOnlyWhenAsked(rows: seq<DeviceRow>, q: DueQuery, today: int)
    requires !q.includeNoDate
    ensures forall it | it in ListDue(rows, q, today).items :: it.status != NoDate && it.daysOverdue.Some?
  {
    var r := ListDue(rows, q, today);
    forall it | it in r.items ensures it.status != NoDate && it.daysOverdue.Some? {
      var i :| 0 <= i < |r.items| && r.items[i] == it;
    }
  }
}
