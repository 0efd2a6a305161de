/** The maintenance due-status vocabulary shared by the server endpoints and
    the client report: the stored next-maintenance date, the five statuses,
    the clamp on the look-ahead window, and the server's CASE classification
    (backend/src/index.ts).

    Dates are whole day numbers. A stored `YYYY-MM-DD` string orders the same
    way as its day number, which is what lets SQLite's string comparison
    stand for date comparison. */
module DueStatus {
  import opened Common

  /** The next_maintenance_date column: NULL, a string of `spaces` space
      characters (Blank(0) is the empty string), or a well-formed date. */
  datatype MaintDate = Missing | Blank(spaces: nat) | On(day: int)

  datatype Status = NoDate | Overdue | DueToday | DueSoon | NotDue

  /** The status names the server returns and the `status` query parameter
      is compared against. */
  function StatusName(s: Status): string
  {
    match s
    case NoDate => "no_date"
    case Overdue => "overdue"
    case DueToday => "due_today"
    case DueSoon => "due_soon"
    case NotDue => "not_due"
  }

  lemma StatusNameInjective(a: Status, b: Status)
    ensures StatusName(a) == StatusName(b) <==> a == b
  {
  }

  /** `x IS NULL OR TRIM(x) = ''`: SQLite's one-argument TRIM strips spaces. */
  predicate SqlNoDate(d: MaintDate)
  {
    d.Missing? || d.Blank?
  }

  /** `Math.min(Math.max(days, 1), 365)`. */
  function ClampDays(days: int): (r: int)
    ensures 1 <= r <= 365
    ensures 1 <= days <= 365 ==> r == days
    ensures days < 1 ==> r == 1
    ensures days > 365 ==> r == 365
  {
    Clamp(days, 1, 365)
  }

  /** The CASE expression that labels each row of the due list: no date,
      strictly before today, today, on or before today + days, otherwise not due. */
  function Classify(d: MaintDate, today: int, days: int): (s: Status)
    ensures s == NoDate <==> SqlNoDate(d)
    ensures s == Overdue <==> d.On? && d.day < today
    ensures s == DueToday <==> d.On? && d.day == today
    ensures s == DueSoon <==> d.On? && today < d.day <= today + days
    ensures s == NotDue <==> d.On? && d.day > today + days && d.day > today
  {
    if SqlNoDate(d) then NoDate
    else if d.day < today then Overdue
    else if d.day == today then DueToday
    else if d.day <= today + days then DueSoon
    else NotDue
  }

  /** The rank used by both the server's ORDER BY and the client's sort. */
  function StatusRank(s: Status): nat
  {
    match s
    case Overdue => 0
    case DueToday => 1
    case DueSoon => 2
    case NoDate => 3
    case NotDue => 2
  }

  /** The ORDER BY CASE of the due list: 3 for no date, 0 before today,
      1 today, 2 otherwise. */
  function SqlRank(d: MaintDate, today: int): nat
  {
    if SqlNoDate(d) then 3
    else if d.day < today then 0
    else if d.day == today then 1
    else 2
  }

  /** The ORDER BY rank agrees with the rank of the status the row is
      labelled with, for every window. */
  lemma SqlRankMatchesStatus(d: MaintDate, today: int, days: int)
    ensures SqlRank(d, today) == StatusRank(Classify(d, today, days))
  {
  }

  /** `ROUND(julianday(today) - julianday(date))`: whole days past due,
      NULL when there is no date. */
  function DaysOverdue(d: MaintDate, today: int): (r: Option<int>)
    ensures r.None? <==> SqlNoDate(d)
    ensures r.Some? ==> (r.value > 0 <==> Classify(d, today, 0) == Overdue)
    ensures r.Some? ==> (r.value == 0 <==> Classify(d, today, 0) == DueToday)
  {
    if d.On? then Some(today - d.day) else None
  }
}
