/** The client-side due-maintenance report of src/pages/DueMaintenanceReport.tsx:
    its own classification of a device's next date (day arithmetic with a
    fixed seven-day cut-off), the filter chain over the device list, the
    sort, and the statistics cards. `today` stands for the browser clock.

    The client's rule differs from the server's (module DueStatus): only a
    null or empty date counts as "no date", and a date further than seven
    days away is still labelled due_soon. The lemmas at the end state where
    the two agree and where they do not. */
module DueReport {
  import opened Common
  import opened DueStatus
  import opened BackendTables
  import MaintenanceApi

  /** calculateStatus: `!nextDate` is no date; otherwise diff = date - today
      in whole days (both parse as UTC midnight, so the ceiling is exact).
      A whitespace-only string parses to an invalid Date: every comparison
      with NaN fails, so it falls through to due_soon with NaN days. */
  function ClientStatus(d: MaintDate, today: int): (r: (Status, JsNum))
    ensures r.0 != NotDue
    ensures r.0 == NoDate <==> d.Missing? || d == Blank(0)
    ensures r.0 == NoDate ==> r.1 == Num(0)
    ensures r.1.NaN? <==> d.Blank? && d.spaces > 0
    ensures d.On? && d.day < today ==> r == (Overdue, Num(today - d.day)) && r.1.n > 0
    ensures d.On? && d.day == today ==> r == (DueToday, Num(0))
    ensures d.On? && d.day > today ==> r == (DueSoon, Num(today - d.day)) && r.1.n < 0
  {
    match d
    case Missing => (NoDate, Num(0))
    case Blank(n) => if n == 0 then (NoDate, Num(0)) else (DueSoon, NaN)
    case On(day) =>
      var diff := day - today;
      if diff < 0 then (Overdue, Num(if diff < 0 then -diff else diff))
      else if diff == 0 then (DueToday, Num(0))
      else (DueSoon, Num(-diff))
  }

  /** One row of the report: the device with its client status and days_overdue. */
  datatype ReportItem = ReportItem(device: DeviceRow, status: Status, daysOverdue: JsNum)

  function ToReportItems(devices: seq<DeviceRow>, today: int): (r: seq<ReportItem>)
    ensures |r| == |devices|
    ensures forall i :: 0 <= i < |devices| ==>
      r[i] == ReportItem(devices[i], ClientStatus(devices[i].nextDate, today).0, ClientStatus(devices[i].nextDate, today).1)
  {
    seq(|devices|, i requires 0 <= i < |devices| =>
      ReportItem(devices[i], ClientStatus(devices[i].nextDate, today).0, ClientStatus(devices[i].nextDate, today).1))
  }

  /** The report's filter selections; "all" turns a selection off. */
  datatype ReportFilters = ReportFilters(department: string, deviceType: string, status: string, includeNoDate: bool)

  /** `days_overdue < -7`, false for NaN. */
  predicate BeyondWeek(n: JsNum)
  {
    n.Num? && n.n < -7
  }

  /** The `.filter` callback. The second test of the source (a status outside
      the four report statuses) never fires, since ClientStatus never
      produces not_due. */
  predicate Keep(it: ReportItem, f: ReportFilters)
  {
    && !(it.status == NoDate && !f.includeNoDate)
    && it.status != NotDue
    && !(it.status == DueSoon && BeyondWeek(it.daysOverdue))
    && (f.department == "all" || IdText(it.device.departmentId) == f.department)
    && (f.deviceType == "all" || IdText(it.device.deviceTypeId) == f.deviceType)
    && (f.status == "all" || StatusName(it.status) == f.status)
  }

  function KeepItems(items: seq<ReportItem>, f: ReportFilters): (r: seq<ReportItem>)
    ensures |r| <= |items|
    ensures forall it :: it in r <==> it in items && Keep(it, f)
    ensures forall it :: multiset(r)[it] == if Keep(it, f) then multiset(items)[it] else 0
    ensures multiset(r) <= multiset(items)
  {
    if items == [] then []
    else
      assert items == [items[0]] + items[1..];
      if Keep(items[0], f) then [items[0]] + KeepItems(items[1..], f) else KeepItems(items[1..], f)
  }

  /** The comparator: status rank, then days_overdue descending. NaN days
      make the comparator return NaN (treated as equal), which no total
      order reproduces; here they are placed after the numeric ones of the
      same rank. */
  predicate ReportOrder(a: ReportItem, b: ReportItem)
  {
    var ra := StatusRank(a.status);
    var rb := StatusRank(b.status);
    ra < rb || (ra == rb && (b.daysOverdue.NaN? || (a.daysOverdue.Num? && a.daysOverdue.n >= b.daysOverdue.n)))
  }

  lemma ReportOrderTotal(a: ReportItem, b: ReportItem)
    ensures ReportOrder(a, b) || ReportOrder(b, a)
  {
  }

  lemma ReportOrderTransitive(a: ReportItem, b: ReportItem, c: ReportItem)
    requires ReportOrder(a, b) && ReportOrder(b, c)
    ensures ReportOrder(a, c)
  {
  }

  predicate SortedReport(s: seq<ReportItem>)
  {
    forall i, j :: 0 <= i < j < |s| ==> ReportOrder(s[i], s[j])
  }

  lemma PrependSortedReport(x: ReportItem, s: seq<ReportItem>)
    requires SortedReport(s)
    requires forall y | y in s :: ReportOrder(x, y)
    ensures SortedReport([x] + s)
  {
    forall i, j | 0 <= i < j < |[x] + s| ensures ReportOrder(([x] + s)[i], ([x] + s)[j]) {
      assert ([x] + s)[j] == s[j - 1];
      if i > 0 {
        assert ([x] + s)[i] == s[i - 1];
      } else {
        assert s[j - 1] in s;
      }
    }
  }

  /** A row that may precede the first row of a sorted list (if any) may
      precede every row of it. */
  lemma InsertReportBelow(x: ReportItem, s: seq<ReportItem>)
    requires SortedReport(s) && (s == [] || ReportOrder(x, s[0]))
    ensures forall y | y in s :: ReportOrder(x, y)
  {
    forall y | y in s ensures ReportOrder(x, y) {
      var j :| 0 <= j < |s| && s[j] == y;
      if j > 0 { ReportOrderTransitive(x, s[0], s[j]); }
    }
  }

  /** The first row of a sorted list may precede the tail with x inserted,
      when it may precede x. */
  lemma InsertReportHead(s: seq<ReportItem>, x: ReportItem, rest: seq<ReportItem>)
    requires SortedReport(s) && s != [] && ReportOrder(s[0], x)
    requires forall y :: y in rest <==> y == x || y in s[1..]
    ensures forall y | y in rest :: ReportOrder(s[0], y)
  {
    forall y | y in rest ensures ReportOrder(s[0], y) {
      if y != x {
        var j :| 0 <= j < |s[1..]| && s[1..][j] == y;
        assert s[j + 1] == y;
      }
    }
  }

  function InsertReport(x: ReportItem, s: seq<ReportItem>): (r: seq<ReportItem>)
    requires SortedReport(s)
    ensures SortedReport(r)
    ensures |r| == |s| + 1
    ensures forall y :: y in r <==> y == x || y in s
    ensures multiset(r) == multiset(s) + multiset{x}
  {
    if s == [] || ReportOrder(x, s[0]) then
      InsertReportBelow(x, s);
      PrependSortedReport(x, s);
      [x] + s
    else
      ReportOrderTotal(x, s[0]);
      var rest := InsertReport(x, s[1..]);
      assert s == [s[0]] + s[1..];
      InsertReportHead(s, x, rest);
      PrependSortedReport(s[0], rest);
      [s[0]] + rest
  }

  function SortReport(s: seq<ReportItem>): (r: seq<ReportItem>)
    ensures SortedReport(r)
    ensures |r| == |s|
    ensures forall y :: y in r <==> y in s
    ensures multiset(r) == multiset(s)
  {
    if s == [] then []
    else
      assert s == [s[0]] + s[1..];
      InsertReport(s[0], SortReport(s[1..]))
  }

  /** Neither item has to come before the other. */
  predicate Tied(a: ReportItem, b: ReportItem)
  {
    ReportOrder(a, b) && ReportOrder(b, a)
  }

  /** The items of s tied with x, in their order in s. */
  function TiesOf(s: seq<ReportItem>, x: ReportItem): seq<ReportItem>
  {
    if s == [] then [] else (if Tied(x, s[0]) then [s[0]] else []) + TiesOf(s[1..], x)
  }

  /** Tied items keep their relative order (`Array.prototype.sort` is
      stable). */
  ghost predicate SameReportTies(s: seq<ReportItem>, t: seq<ReportItem>)
  {
    forall x :: TiesOf(s, x) == TiesOf(t, x)
  }

  lemma TiesOfCons(y: ReportItem, s: seq<ReportItem>, x: ReportItem)
    ensures TiesOf([y] + s, x) == (if Tied(x, y) then [y] else []) + TiesOf(s, x)
  {
    assert ([y] + s)[0] == y && ([y] + s)[1..] == s;
  }

  /** Inserting x puts it before every item it is tied with, so relative to
      them it stays where it was: at the front. */
  lemma {:induction false} InsertReportStable(x: ReportItem, s: seq<ReportItem>)
    requires SortedReport(s)
    ensures SameReportTies(InsertReport(x, s), [x] + s)
  {
    if s != [] && !ReportOrder(x, s[0]) {
      InsertReportStable(x, s[1..]);
      var rest := InsertReport(x, s[1..]);
      assert InsertReport(x, s) == [s[0]] + rest;
      assert s == [s[0]] + s[1..];
      forall z
        ensures TiesOf(InsertReport(x, s), z) == TiesOf([x] + s, z)
      {
        TiesOfCons(s[0], rest, z);
        TiesOfCons(x, s[1..], z);
        TiesOfCons(x, s, z);
        TiesOfCons(s[0], s[1..], z);
        if Tied(z, x) && Tied(z, s[0]) {
          ReportOrderTransitive(x, z, s[0]);
        }
      }
    }
  }

  /** The report sort is stable. */
  lemma {:induction false} SortReportStable(s: seq<ReportItem>)
    ensures SameReportTies(SortReport(s), s)
  {
    if s != [] {
      SortReportStable(s[1..]);
      var rest := SortReport(s[1..]);
      InsertReportStable(s[0], rest);
      assert s == [s[0]] + s[1..];
      forall z
        ensures TiesOf(SortReport(s), z) == TiesOf(s, z)
      {
        TiesOfCons(s[0], rest, z);
        TiesOfCons(s[0], s[1..], z);
      }
    }
  }

  /** The `dueDevices` memo: map, filter, sort. The result is a reordering of
      a subset of the mapped devices, every entry passes every filter, and
      the order is by status rank, then days overdue descending. */
  function DueDevices(devices: seq<DeviceRow>, today: int, f: ReportFilters): (r: seq<ReportItem>)
    ensures multiset(r) <= multiset(ToReportItems(devices, today))
    ensures forall it | it in r :: it in ToReportItems(devices, today) && Keep(it, f)
    ensures forall it | it in ToReportItems(devices, today) && Keep(it, f) :: it in r
    ensures forall it :: multiset(r)[it] == if Keep(it, f) then multiset(ToReportItems(devices, today))[it] else 0
    ensures SortedReport(r)
    ensures SameReportTies(r, KeepItems(ToReportItems(devices, today), f))
  {
    SortReportStable(KeepItems(ToReportItems(devices, today), f));
    SortReport(KeepItems(ToReportItems(devices, today), f))
  }

  datatype ReportStats = ReportStats(overdue: nat, dueToday: nat, dueSoon: nat, noDate: nat, total: nat)

  /** The bucket a statistics card counts an item in, if any. */
  function StatsBucket(d: MaintDate, today: int): Option<Status>
  {
    var (s, n) := ClientStatus(d, today);
    if s == DueSoon && !(n.Num? && n.n >= -7) then None else Some(s)
  }

  function CountBucket(devices: seq<DeviceRow>, today: int, s: Status): (n: nat)
    ensures n <= |devices|
  {
    if devices == [] then 0
    else (if StatsBucket(devices[0].nextDate, today) == Some(s) then 1 else 0) + CountBucket(devices[1..], today, s)
  }

  /** The number of devices the client labels s. */
  function CountStatus(devices: seq<DeviceRow>, today: int, s: Status): (n: nat)
    ensures n <= |devices|
  {
    if devices == [] then 0
    else (if ClientStatus(devices[0].nextDate, today).0 == s then 1 else 0) + CountStatus(devices[1..], today, s)
  }

  /** The number of due_soon devices whose days_overdue is a number at least
      -7 (withinWeek), or else beyond a week or NaN (!withinWeek). */
  function CountSoon(devices: seq<DeviceRow>, today: int, withinWeek: bool): (n: nat)
    ensures n <= |devices|
  {
    if devices == [] then 0
    else
      var (s, days) := ClientStatus(devices[0].nextDate, today);
      (if s == DueSoon && (days.Num? && days.n >= -7) == withinWeek then 1 else 0)
      + CountSoon(devices[1..], today, withinWeek)
  }

  /** The statistics cards, computed over every device whatever the filters:
      overdue, due today and no date count the devices with that client
      status, the due-soon card only those at most a week away; what is
      left over is exactly the due_soon devices beyond a week or with NaN
      days, which no card counts. */
  function Stats(devices: seq<DeviceRow>, today: int): (r: ReportStats)
    ensures r.total == |devices|
    ensures r.overdue == CountStatus(devices, today, Overdue)
    ensures r.dueToday == CountStatus(devices, today, DueToday)
    ensures r.noDate == CountStatus(devices, today, NoDate)
    ensures r.dueSoon == CountSoon(devices, today, true)
    ensures r.overdue + r.dueToday + r.dueSoon + r.noDate + CountSoon(devices, today, false) == r.total
  {
    StatsPartition(devices, today);
    ReportStats(CountBucket(devices, today, Overdue), CountBucket(devices, today, DueToday),
                CountBucket(devices, today, DueSoon), CountBucket(devices, today, NoDate), |devices|)
  }

  /** The cards count by client status, and together with the due_soon
      devices beyond a week (or NaN) they cover every device once. */
  lemma {:induction false} StatsPartition(devices: seq<DeviceRow>, today: int)
    ensures CountBucket(devices, today, Overdue) == CountStatus(devices, today, Overdue)
    ensures CountBucket(devices, today, DueToday) == CountStatus(devices, today, DueToday)
    ensures CountBucket(devices, today, NoDate) == CountStatus(devices, today, NoDate)
    ensures CountBucket(devices, today, DueSoon) == CountSoon(devices, today, true)
    ensures CountStatus(devices, today, Overdue) + CountStatus(devices, today, DueToday)
            + CountSoon(devices, today, true) + CountStatus(devices, today, NoDate)
            + CountSoon(devices, today, false) == |devices|
  {
    if devices != [] {
      StatsPartition(devices[1..], today);
    }
  }

  /** A whitespace-only date lands in no card: it is counted only in the
      total. */
  lemma BlankDateInNoCard(row: DeviceRow, today: int)
    requires row.nextDate.Blank? && row.nextDate.spaces > 0
    ensures Stats([row], today) == ReportStats(0, 0, 0, 0, 1)
    ensures CountSoon([row], today, false) == 1
  {
    assert [row][1..] == [];
  }

  lemma {:induction false} BucketsBounded(devices: seq<DeviceRow>, today: int)
    ensures CountBucket(devices, today, Overdue) + CountBucket(devices, today, DueToday)
            + CountBucket(devices, today, DueSoon) + CountBucket(devices, today, NoDate) <= |devices|
  {
    if devices != [] {
      BucketsBounded(devices[1..], today);
    }
  }

  /** A date the client reads the way the server does: absent, empty, or a
      well-formed date. */
  predicate WellFormedDate(d: MaintDate)
  {
    !(d.Blank? && d.spaces > 0)
  }

  /** For a well-formed date the client's label is the server's label with a
      seven-day window, except that the server's not_due is the client's
      due_soon beyond a week; days_overdue is the same number. */
  lemma ClientMatchesServer(d: MaintDate, today: int)
    requires WellFormedDate(d)
    ensures var (s, n) := ClientStatus(d, today);
            var server := Classify(d, today, 7);
            && (server != NotDue ==> s == server)
            && (server == NotDue <==> s == DueSoon && BeyondWeek(n))
            && (d.On? ==> n == Num(today - d.day) && DaysOverdue(d, today) == Some(today - d.day))
  {
  }

  /** A whitespace-only date is where they part: the server says no_date,
      the client says due_soon with NaN days, and the report keeps it. */
  lemma BlankDateDisagrees(today: int)
    ensures Classify(Blank(1), today, 7) == NoDate
    ensures ClientStatus(Blank(1), today) == (DueSoon, NaN)
    ensures !BeyondWeek(ClientStatus(Blank(1), today).1)
  {
  }

  /** With well-formed dates the statistics cards agree with the server's
      summary for the default seven-day window. */
  lemma {:induction false} StatsMatchSummary(devices: seq<DeviceRow>, today: int)
    requires forall i :: 0 <= i < |devices| ==> WellFormedDate(devices[i].nextDate)
    ensures Stats(devices, today).overdue == MaintenanceApi.Summarize(devices, today, 7).overdue
    ensures Stats(devices, today).dueToday == MaintenanceApi.Summarize(devices, today, 7).dueToday
    ensures Stats(devices, today).dueSoon == MaintenanceApi.Summarize(devices, today, 7).dueSoon
    ensures Stats(devices, today).noDate == MaintenanceApi.Summarize(devices, today, 7).noDate
  {
    BucketsMatchStatus(devices, today, Overdue);
    BucketsMatchStatus(devices, today, DueToday);
    BucketsMatchStatus(devices, today, DueSoon);
    BucketsMatchStatus(devices, today, NoDate);
  }

  lemma {:induction false} BucketsMatchStatus(devices: seq<DeviceRow>, today: int, s: Status)
    requires forall i :: 0 <= i < |devices| ==> WellFormedDate(devices[i].nextDate)
    requires s != NotDue
    ensures CountBucket(devices, today, s) == MaintenanceApi.StatusCount(devices, s, today, 7)
  {
    if devices != [] {
      ClientMatchesServer(devices[0].nextDate, today);
      BucketsMatchStatus(devices[1..], today, s);
    }
  }

  /** With well-formed dates and no other filter, the report lists exactly
      the devices the server's due list selects with include_no_date=1 and
      a seven-day window. */
  lemma ReportMatchesDueWindow(devices: seq<DeviceRow>, today: int, d: DeviceRow)
    requires d in devices && WellFormedDate(d.nextDate)
    ensures (exists it | it in DueDevices(devices, today, ReportFilters("all", "all", "all", true)) :: it.device == d)
            <==> MaintenanceApi.InDueWindow(d.nextDate, today, 7, true)
  {
    var f := ReportFilters("all", "all", "all", true);
    var items := ToReportItems(devices, today);
    var i :| 0 <= i < |devices| && devices[i] == d;
    ClientMatchesServer(d.nextDate, today);
    if MaintenanceApi.InDueWindow(d.nextDate, today, 7, true) {
      assert items[i] in items && Keep(items[i], f);
    }
  }
}
