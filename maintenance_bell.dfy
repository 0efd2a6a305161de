/** The header's maintenance bell (src/components/Maintenance/MaintenanceBell.tsx):
    the badge over the bell, the day count shown for each listed item, and
    the two loaders with their enabled switch and the twenty-second throttle
    on the list. Network answers and the clock are parameters. */
module MaintenanceBell {
  import opened Common
  import opened DueStatus
  import MaintenanceApi
  import BackendTables

  /** The summary the bell keeps; days is the window it asked for. */
  datatype BellSummary = BellSummary(overdue: int, dueToday: int, dueSoon: int, noDate: int, totalDue: int, days: int)

  /** One listed item as the bell reads it: the status text and
      days_overdue, which may be null. */
  datatype BellItem = BellItem(name: string, status: string, daysOverdue: Option<int>)

  /** The outcome of a request: an answer whose `data` may be missing, or a
      thrown error. */
  datatype Fetch<T> = Answer(data: Option<T>) | Failure

  /** What statusBadge renders. */
  datatype Badge = OverdueDays(days: nat) | DueTodayBadge | SoonDays(days: nat) | Unspecified

  /** `Number(x || 0)` for a days_overdue that may be null. */
  function DaysOrZero(d: Option<int>): int
  {
    if d.Some? then d.value else 0
  }

  /** statusBadge: overdue shows max(0, days); due_soon shows |days|; any
      other status but due_today shows the "unspecified" label. */
  function StatusBadge(it: BellItem): (b: Badge)
    ensures it.status == "overdue" ==> b == OverdueDays(if DaysOrZero(it.daysOverdue) > 0 then DaysOrZero(it.daysOverdue) else 0)
    ensures it.status == "due_today" ==> b == DueTodayBadge
    ensures it.status == "due_soon" ==> b.SoonDays? && (b.days == DaysOrZero(it.daysOverdue) || b.days == -DaysOrZero(it.daysOverdue))
    ensures it.status !in {"overdue", "due_today", "due_soon"} ==> b == Unspecified
  {
    if it.status == "overdue" then OverdueDays(Max(0, DaysOrZero(it.daysOverdue)))
    else if it.status == "due_today" then DueTodayBadge
    else if it.status == "due_soon" then
      var d := DaysOrZero(it.daysOverdue);
      SoonDays(Max(0, if d < 0 then -d else d))
    else Unspecified
  }

  /** How the bell reads one element of the server's due list. */
  function FromServer(it: MaintenanceApi.DueItem): BellItem
  {
    BellItem(it.device.name, StatusName(it.status), it.daysOverdue)
  }

  /** The badge of one item whose status and day count are the server's
      classification of its date. */
  lemma BadgeOfClassified(it: MaintenanceApi.DueItem, today: int, days: int)
    requires it.status == Classify(it.device.nextDate, today, days)
    requires it.daysOverdue == DaysOverdue(it.device.nextDate, today)
    ensures it.status == Overdue ==> StatusBadge(FromServer(it)) == OverdueDays(today - it.device.nextDate.day)
    ensures it.status == DueSoon ==>
              StatusBadge(FromServer(it)) == SoonDays(it.device.nextDate.day - today)
              && 1 <= it.device.nextDate.day - today <= days
    ensures it.status == NoDate ==> StatusBadge(FromServer(it)) == Unspecified
  {
    match it.status
    case Overdue =>
      assert StatusName(Overdue) == "overdue";
    case DueSoon =>
      assert StatusName(DueSoon) == "due_soon";
      assert StatusName(DueSoon) != "overdue" && StatusName(DueSoon) != "due_today";
    case NoDate =>
      assert StatusName(NoDate) == "no_date";
      assert StatusName(NoDate) !in {"overdue", "due_today", "due_soon"};
    case DueToday =>
    case NotDue =>
  }

  /** For an item of the server's due list the badge shows the true
      distance: the days past due for an overdue one, the days until due
      (between 1 and the window) for a due-soon one, and a no-date item
      gets the "unspecified" label. */
  lemma ServerItemBadge(rows: seq<BackendTables.DeviceRow>, q: MaintenanceApi.DueQuery, today: int,
                        it: MaintenanceApi.DueItem)
    requires it in MaintenanceApi.ListDue(rows, q, today).items
    ensures it.status == Overdue ==> StatusBadge(FromServer(it)) == OverdueDays(today - it.device.nextDate.day)
    ensures it.status == DueSoon ==>
              StatusBadge(FromServer(it)) == SoonDays(it.device.nextDate.day - today)
              && 1 <= it.device.nextDate.day - today <= ClampDays(q.days)
    ensures it.status == NoDate ==> StatusBadge(FromServer(it)) == Unspecified
  {
    BadgeOfClassified(it, today, ClampDays(q.days));
  }

  /** The badge text: hidden unless totalDue > 0, "99+" above 99. */
  function BadgeText(totalDue: int): (r: Option<string>)
    ensures r.None? <==> totalDue <= 0
    ensures totalDue > 99 ==> r == Some("99+")
    ensures 0 < totalDue <= 99 ==> r.Some? && r.value == NatToString(totalDue) && DigitsValue(r.value) == totalDue
  {
    if totalDue <= 0 then None
    else if totalDue > 99 then Some("99+")
    else
      NatToStringRoundTrip(totalDue);
      Some(NatToString(totalDue))
  }

  /** With the server's summary the badge shows exactly when some device is
      overdue, due today or due within the window. */
  lemma BadgeShownIffSomethingDue(rows: seq<BackendTables.DeviceRow>, today: int, days: int)
    ensures var s := MaintenanceApi.Summarize(rows, today, days);
            BadgeText(s.totalDue).Some? <==>
              exists i | 0 <= i < |rows| :: Classify(rows[i].nextDate, today, ClampDays(days)) in {Overdue, DueToday, DueSoon}
  {
    var w := ClampDays(days);
    DueCountPositive(rows, today, w);
  }

  lemma {:induction false} DueCountPositive(rows: seq<BackendTables.DeviceRow>, today: int, w: int)
    ensures MaintenanceApi.StatusCount(rows, Overdue, today, w) + MaintenanceApi.StatusCount(rows, DueToday, today, w)
            + MaintenanceApi.StatusCount(rows, DueSoon, today, w) > 0
            <==> exists i | 0 <= i < |rows| :: Classify(rows[i].nextDate, today, w) in {Overdue, DueToday, DueSoon}
  {
    if rows != [] {
      DueCountPositive(rows[1..], today, w);
      if exists i | 0 <= i < |rows[1..]| :: Classify(rows[1..][i].nextDate, today, w) in {Overdue, DueToday, DueSoon} {
        var i :| 0 <= i < |rows[1..]| && Classify(rows[1..][i].nextDate, today, w) in {Overdue, DueToday, DueSoon};
        assert rows[i + 1] == rows[1..][i];
      }
      if exists i | 0 <= i < |rows| :: Classify(rows[i].nextDate, today, w) in {Overdue, DueToday, DueSoon} {
        var i :| 0 <= i < |rows| && Classify(rows[i].nextDate, today, w) in {Overdue, DueToday, DueSoon};
        if i > 0 {
          assert rows[1..][i - 1] == rows[i];
        }
      }
    }
  }

  const THROTTLE_MS: int := 20000

  class Bell {
    const enabled: bool
    const days: int
    var summary: BellSummary
    var items: seq<BellItem>
    var lastLoadedAt: int

    constructor (enabled: bool, days: int)
      ensures this.enabled == enabled && this.days == days
      ensures summary == BellSummary(0, 0, 0, 0, 0, days) && items == [] && lastLoadedAt == 0
    {
      this.enabled := enabled;
      this.days := days;
      summary := BellSummary(0, 0, 0, 0, 0, days);
      items := [];
      lastLoadedAt := 0;
    }

    /** `Number(summary.totalDue || 0)`. */
    function BadgeCount(): int
      reads this
    {
      summary.totalDue
    }

    /** loadSummary: nothing when disabled; a failed request keeps the old
        summary; an answer without data resets to zeros. */
    method LoadSummary(response: Fetch<BellSummary>)
      modifies this
      ensures !enabled ==> summary == old(summary)
      ensures enabled && response.Failure? ==> summary == old(summary)
      ensures enabled && response.Answer? && response.data.Some? ==> summary == response.data.value
      ensures enabled && response.Answer? && response.data.None? ==> summary == BellSummary(0, 0, 0, 0, 0, days)
      ensures items == old(items) && lastLoadedAt == old(lastLoadedAt)
    {
      if !enabled { return; }
      match response
      case Failure =>
      case Answer(data) =>
        summary := if data.Some? then data.value else BellSummary(0, 0, 0, 0, 0, days);
    }

    /** Whether loadList issues a request at time `now`. */
    predicate WillFetch(now: int)
      reads this
    {
      enabled && !(now - lastLoadedAt < THROTTLE_MS && |items| > 0)
    }

    /** loadList: nothing when disabled, nothing within twenty seconds of the
        last successful load while items are shown; a success replaces the
        items and records the time; a failure empties the items and keeps
        the time. */
    method LoadList(now: int, response: Fetch<seq<BellItem>>) returns (fetched: bool)
      modifies this
      ensures fetched == old(WillFetch(now))
      ensures !fetched ==> items == old(items) && lastLoadedAt == old(lastLoadedAt)
      ensures fetched && response.Answer? ==>
                items == (if response.data.Some? then response.data.value else []) && lastLoadedAt == now
      ensures fetched && response.Failure? ==> items == [] && lastLoadedAt == old(lastLoadedAt)
      ensures summary == old(summary)
    {
      if !enabled { return false; }
      if now - lastLoadedAt < THROTTLE_MS && |items| > 0 { return false; }
      fetched := true;
      match response
      case Answer(data) =>
        items := if data.Some? then data.value else [];
        lastLoadedAt := now;
      case Failure =>
        items := [];
    }
  }

  /** Two list loads in a row within the throttle window: when the first
      succeeds with items, the second makes no request. */
  method ThrottleExample(b: Bell, now: int, later: int, first: seq<BellItem>, second: Fetch<seq<BellItem>>)
    returns (secondFetched: bool)
    requires b.enabled && |first| > 0 && b.WillFetch(now)
    requires now <= later < now + THROTTLE_MS
    modifies b
    ensures !secondFetched
    ensures b.items == first
  {
    var f1 := b.LoadList(now, Answer(Some(first)));
    secondFetched := b.LoadList(later, second);
  }
}
