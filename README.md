# Hospital medical-device registry: maintenance due-status engine and its surroundings

This project models the logic of a hospital medical-device registry. The
registry has a Cloudflare-Worker backend over SQLite tables and a React
front end. Everything is written in Dafny and proved there.

At the centre is the **maintenance due-status engine**. It decides, for each
device's next maintenance date, whether the device is overdue, due today,
due soon, not due, or has no date. The engine exists twice, and both copies
are modelled separately:

- The server copy (`backend/src/index.ts`) feeds the notification bell. It
  has a summary of four SUM(CASE) counts, and a due list with filters, an
  ORDER BY and LIMIT/OFFSET.
- The client copy (`src/pages/DueMaintenanceReport.tsx`) does day arithmetic
  with a fixed seven-day cut-off. It has its own filter chain, sort and
  statistics cards.

Lemmas state where the two copies agree (well-formed dates, a seven-day
window) and where they do not (a whitespace-only date).

Around the engine the model covers:

- the server handlers that change tables: device create and delete with the
  departments' `devices_count`, criteria keys that are unique ignoring case,
  and the replacement of a device type's criteria;
- the paged device listing;
- the local registry in `localDB.ts`;
- the routine-check page: the device picker, the scan match, the criteria
  check-boxes, and the save rule with its monthly rating;
- the checks list: filters, an in-place sort and pagination;
- the bell: its badge and the throttled loaders;
- the device form: the cost field, the contract photos, the payload and the
  reset after a create;
- the QR placement on the device label;
- the administration page's privilege and criteria check-boxes and its
  required-field checks;
- the authentication context;
- the route gating and navigation links of `App.tsx`.

Modelling conventions:

- Dates are whole day numbers, and `today` is a parameter. A stored
  `YYYY-MM-DD` string orders like its day number.
- The stored next-maintenance date is `MaintDate`: NULL, a run of `n`
  spaces (`Blank(0)` is the empty string), or a date.
- Network answers, storage reads, generated ids and clocks are parameters.
- Strings are `seq<char>`. Case folding is ASCII only.
- State that the source changes step by step lives in classes:
  - `BackendTables.Database`, for the server tables;
  - `LocalDb.LocalStore`, for the browser registry;
  - `ChecksList.ChecksView`, for the checks page;
  - `MaintenanceBell.Bell`, for the bell;
  - `DeviceForm.DeviceEditor`, for the device form;
  - `LabelDesigner.QrPlacer`, for the QR placement;
  - `Auth.AuthProvider`, for the session.

  Their methods state the whole new state.
- The checks list sorts an `array` in place with an insertion sort. Its
  contract is "sorted and a permutation".
- The monthly criteria record is built by a loop. The criteria links of a
  device type are replaced by a loop. Both are methods with loop invariants.

Modules: `Common` (JS trim, lower-case, `includes`, decimal text, clamps),
`DueStatus`, `BackendTables`, `MaintenanceApi`, `DueReport`, `LocalDb`,
`RoutineCheckForm`, `ChecksList`, `MaintenanceBell`, `DeviceForm`,
`LabelDesigner`, `AdminControl`, `Auth` and `AppRoutes`.

## Model

| member | source | states |
|---|---|---|
| Common.TrimEdges | src/store/localDB.ts:52 | `trim()` leaves no white space at either end and removes only white space: the result is a contiguous slice of the input |
| Common.BlankIffAllSpace | src/store/localDB.ts:75-79 | `!s.trim()` holds exactly when every character of s is white space (the empty string included) |
| Common.TrimIdempotent | src/store/localDB.ts:52-54 | trimming a trimmed name changes nothing, so a stored department name compares equal to the name it was added with |
| Common.ContainsIffOccurs | src/pages/ChecksList.tsx:48 | `includes` holds exactly when the term occurs at some position of the text |
| Common.NatToStringRoundTrip | src/components/Maintenance/MaintenanceBell.tsx:151 | the decimal text of a number reads back as that number |
| DueStatus.ClampDays | backend/src/index.ts:441 | the window is always in [1, 365]; an in-range value is kept; below 1 it becomes 1 and above 365 it becomes 365 (never rejected) |
| DueStatus.Classify | backend/src/index.ts:534-540 | exactly one status per date: no_date iff NULL or blank after TRIM; overdue iff before today; due_today iff today; due_soon iff after today and at most today + days (inclusive); not_due otherwise |
| DueStatus.StatusNameInjective | backend/src/index.ts:534-540 | the five status names differ, so a `status=` filter selects one status |
| DueStatus.SqlRankMatchesStatus | backend/src/index.ts:546-551 | the ORDER BY rank (overdue 0, due_today 1, due_soon 2, no_date 3) is the rank of the status the row is labelled with, for every window |
| DueStatus.DaysOverdue | backend/src/index.ts:541 | days_overdue is NULL exactly for no date; otherwise it is positive iff overdue and 0 iff due today |
| MaintenanceApi.ColumnCountIsStatusCount | backend/src/index.ts:445-450 | each SUM(CASE) column counts exactly the rows the due list's CASE labels with the matching status |
| MaintenanceApi.StatusCountsPartition | backend/src/index.ts:445-450 | the five status counts add up to the number of devices: the buckets are disjoint and cover the table |
| MaintenanceApi.Summarize | backend/src/index.ts:437-461 | days is clamped; each count is the number of rows with that status over the whole table; totalDue = overdue + dueToday + dueSoon and never includes noDate; noDate + totalDue + not_due = table size |
| MaintenanceApi.DueRows | backend/src/index.ts:480-513 | the WHERE clause keeps exactly the rows in the due window (no date only with include_no_date) that pass the department, type and status equality filters: every copy of a matching row is kept and no other row is |
| MaintenanceApi.DueOrderTotal | backend/src/index.ts:546-553 | any two rows are comparable under the ORDER BY |
| MaintenanceApi.DueOrderTransitive | backend/src/index.ts:546-553 | the ORDER BY is transitive |
| MaintenanceApi.InsertDue | backend/src/index.ts:546-553 | inserting into a list sorted by the ORDER BY keeps it sorted and adds exactly one copy of the row |
| MaintenanceApi.SortDue | backend/src/index.ts:546-553 | the rows in ORDER BY order: sorted by rank, then earlier date first, and a permutation of the input |
| MaintenanceApi.ToItems | backend/src/index.ts:529-541 | every listed item carries its row, the CASE status and days_overdue of that row |
| MaintenanceApi.Window | backend/src/index.ts:554 | LIMIT/OFFSET on sorted rows: at most limit rows starting at offset, none past the end, in order |
| MaintenanceApi.DuePage | backend/src/index.ts:529-554 | the page's items are the sorted rows from position offset on, one by one, at most limit of them, each with its CASE status and days_overdue |
| MaintenanceApi.ListDue | backend/src/index.ts:463-575 | limit clamped to [1, 50] and offset to at least 0; total counts every matching row whatever limit and offset are; at most limit items, exactly min(limit, total − offset) when offset < total and none otherwise; every item matches the WHERE clause and carries its status and days_overdue; items in ORDER BY order; the items are exactly the rows from position offset on of some ORDER BY ordering of the matching rows (ties in any order) |
| MaintenanceApi.PageOfMatches | backend/src/index.ts:554 | a page of a sorted reordering of the matching rows holds only matching rows of the table |
| MaintenanceApi.DueItemsNeverNotDue | backend/src/index.ts:484-488 | no listed item is not_due |
| MaintenanceApi.UnreachableStatusEmpty | backend/src/index.ts:501-513 | `status=not_due` or an unknown status gives total 0 and no items |
| MaintenanceApi.NoDateOnlyWhenAsked | backend/src/index.ts:484-488 | without include_no_date=1 no listed item is no_date, and each has a days_overdue |
| BackendTables.AdjustCountEffect | backend/src/index.ts:179-183 | `devices_count ± 1 WHERE id = ?` changes only the matching departments, only in devices_count, by exactly delta |
| BackendTables.AdjustCountCancels | backend/src/index.ts:274-282 | adding then removing a device of the same department restores every count |
| BackendTables.WithoutDevice | backend/src/index.ts:274 | DELETE keeps exactly the other rows |
| BackendTables.WithoutType | backend/src/index.ts:863 | DELETE keeps exactly the links of other types |
| BackendTables.FirstWithId | backend/src/index.ts:273 | `.first()` returns a row with the id, and nothing only when no row has it |
| BackendTables.Database.CreateDevice | backend/src/index.ts:153-186 | the row is appended; a truthy department gets devices_count + 1 and no other department changes; the other tables are untouched |
| BackendTables.Database.DeleteDevice | backend/src/index.ts:271-285 | every row with the id is deleted; the department of the first such row, when truthy, gets devices_count − 1; nothing else changes |
| BackendTables.Database.CreateCriterion | backend/src/index.ts:737-762 | 400 iff key or label_ar is empty; 409 iff some row already has the key ignoring ASCII case (inactive rows included), with no write; otherwise exactly one active row is appended |
| BackendTables.Database.UpdateCriterion | backend/src/index.ts:764-790 | 409 iff a row with another id has the key ignoring case, with no write; otherwise every row with the id is rewritten and the others kept |
| BackendTables.Database.SetTypeCriteria | backend/src/index.ts:857-873 | the type's links are deleted, then one link per submitted id is appended in order; the loop's invariant is the links built so far |
| BackendTables.TypeLinksReplaced | backend/src/index.ts:857-873 | afterwards the type's criteria are exactly the submitted ids in order, and every other type's criteria are unchanged |
| BackendTables.LinksOfAppend | backend/src/index.ts:866-870 | selecting a type's links distributes over appending |
| BackendTables.CeilDiv | backend/src/index.ts:148 | `Math.ceil(total / limit)`: the pages cover the total and the last page is not empty |
| BackendTables.DevicePagingFor | backend/src/index.ts:85-149 | no page and no limit means unpaged; otherwise page = max(1, page), limit = min(max(1, limit), 100), offset = (page − 1)·limit ≥ 0, totalPages = ⌈total/limit⌉ (covers the total, last page non-empty) |
| BackendTables.MatchingDevices | backend/src/index.ts:97-109 | exactly the rows whose name, serial, manufacturer or supplier contains the trimmed q (ASCII case ignored) and whose department equals the filter |
| BackendTables.ListDevices | backend/src/index.ts:78-151 | unpaged returns every device, unfiltered, whatever q and department_id are; paged returns the slice from offset of at most limit matches, with total counting all matches |
| DueReport.ClientStatus | src/pages/DueMaintenanceReport.tsx:65-84 | never not_due; no_date (0 days) exactly for a null or empty date; before today → overdue with today − date > 0; today → due_today with 0; after today → due_soon with −(date − today) < 0; a whitespace-only date → due_soon with NaN days |
| DueReport.ToReportItems | src/pages/DueMaintenanceReport.tsx:89-106 | one item per device, in order, with its client status and days |
| DueReport.KeepItems | src/pages/DueMaintenanceReport.tsx:107-123 | exactly the items passing every filter (no_date only when included, due_soon only within 7 days, equality on the department, type and status text with "all" turning each off); every copy of a kept item stays and nothing else |
| DueReport.ReportOrderTotal | src/pages/DueMaintenanceReport.tsx:124-133 | any two items are comparable by rank, then days_overdue descending |
| DueReport.ReportOrderTransitive | src/pages/DueMaintenanceReport.tsx:124-133 | that order is transitive |
| DueReport.InsertReport | src/pages/DueMaintenanceReport.tsx:124-133 | inserting into a sorted report keeps it sorted and adds exactly one copy |
| DueReport.SortReport | src/pages/DueMaintenanceReport.tsx:124-133 | the sorted report is ordered and is a permutation of its input |
| DueReport.InsertReportStable | src/pages/DueMaintenanceReport.tsx:124-133 | an inserted item lands before every item it ties with, so ties keep the order they had |
| DueReport.SortReportStable | src/pages/DueMaintenanceReport.tsx:124-133 | the sort is stable: for every item, the items tied with it appear in the same order as in the input |
| DueReport.DueDevices | src/pages/DueMaintenanceReport.tsx:87-135 | the result holds every copy of each mapped item that passes the filters and nothing else, sorted by rank then days_overdue descending; tied items (same rank and days, for example all no_date items) keep the order of the device list |
| DueReport.Stats | src/pages/DueMaintenanceReport.tsx:138-147 | total is the number of devices, whatever the filters; overdue, due today and no date count the devices with that client status; due soon counts only those at most 7 days away; the cards plus the due_soon devices beyond a week or with NaN days add up to the total |
| DueReport.StatsPartition | src/pages/DueMaintenanceReport.tsx:140-145 | each card equals the count of its client status (due soon: within a week), and the cards with the uncounted due_soon devices cover every device once |
| DueReport.BlankDateInNoCard | src/pages/DueMaintenanceReport.tsx:143 | a device with a whitespace-only date is in no card, only in the total |
| DueReport.BucketsBounded | src/pages/DueMaintenanceReport.tsx:140-145 | the four card counts are disjoint, so their sum is at most the device count |
| DueReport.ClientMatchesServer | src/pages/DueMaintenanceReport.tsx:65-84 | for a well-formed date the client's status is the server's with a 7-day window, except that the server's not_due is the client's due_soon beyond a week; days_overdue is the same number |
| DueReport.BlankDateDisagrees | src/pages/DueMaintenanceReport.tsx:66-68 | a whitespace-only date is no_date on the server but due_soon with NaN days on the client, and the report keeps it |
| DueReport.StatsMatchSummary | src/pages/DueMaintenanceReport.tsx:138-147 | with well-formed dates the four cards equal the server summary's four counts for days = 7 |
| DueReport.BucketsMatchStatus | src/pages/DueMaintenanceReport.tsx:140-145 | with well-formed dates each card counts the devices the server labels with that status for days = 7 |
| DueReport.ReportMatchesDueWindow | src/pages/DueMaintenanceReport.tsx:107-113 | with well-formed dates and no other filter, a device is listed exactly when the server's due window (days 7, include_no_date) selects it |
| LocalDb.FindBySerial | src/store/localDB.ts:69-71 | returns the first device whose serial equals the given one after trim and lower-casing, and nothing exactly when none does |
| LocalDb.BumpCount | src/store/localDB.ts:101 | the department with the id gains one device; every other entry is kept |
| LocalDb.ChecksOf | src/store/localDB.ts:133-135 | exactly the checks of that device |
| LocalDb.ChecksOfAppend | src/store/localDB.ts:133-135 | the selection distributes over concatenation, so the stored order is kept |
| LocalDb.LocalStore.AddDepartment | src/store/localDB.ts:50-58 | refused, with the list unchanged, iff the name equals an existing one after trim and lower-casing; otherwise exactly one department with the trimmed name and devices_count 0 is appended |
| LocalDb.LocalStore.AddDevice | src/store/localDB.ts:73-105 | name, supplier, manufacturer, serial and department are checked in that order and the first blank one is the error; with all five present, a duplicate serial is refused exactly when one exists; then install before supply is refused exactly when both dates are given and valid; on success the device is appended and its department bumped; on refusal nothing changes |
| LocalDb.LocalStore.ChecksByDevice | src/store/localDB.ts:133-135 | exactly the stored checks of the device |
| LocalDb.LocalStore.AddRoutineCheck | src/store/localDB.ts:137-152 | device id, date, state and checker name are checked in that order, then that the device exists; only then is the check appended |
| LocalDb.AddDepartmentKeepsNamesUnique | src/store/localDB.ts:50-58 | a successful addDepartment keeps department names unique |
| LocalDb.AddDeviceKeepsSerialsUnique | src/store/localDB.ts:81-98 | a successful addDevice keeps serials unique, and findDeviceBySerial then finds the new device |
| LocalDb.BumpCountOnlyThatDepartment | src/store/localDB.ts:100-102 | only the matching department's count changes, by one; ids and names are kept |
| LocalDb.AddedCheckListed | src/store/localDB.ts:147-150 | after a check is added, its device's list gains it at the end and every other device's list is unchanged |
| RoutineCheckForm.FilteredDevices | src/pages/RoutineCheck.tsx:152-165 | empty without a search and a department; otherwise exactly the devices whose name or serial contains the search (case ignored) and whose department text matches, kept in their list order |
| RoutineCheckForm.ExactNameOffered | src/pages/RoutineCheck.tsx:155-158 | a device whose name is the search text, in any case, is offered |
| RoutineCheckForm.NormalizeIsNormal | src/pages/RoutineCheck.tsx:266-267 | normalize leaves no white space at the ends, single spaces only, and no upper-case letter |
| RoutineCheckForm.NormalStable | src/pages/RoutineCheck.tsx:266-267 | a normal string is a fixed point of normalize |
| RoutineCheckForm.NormalizeIdempotent | src/pages/RoutineCheck.tsx:266-267 | normalize(normalize(s)) = normalize(s) |
| RoutineCheckForm.CollapseShape | src/pages/RoutineCheck.tsx:267 | `replace(/\s+/g, ' ')` leaves only single spaces as white space and adds no upper-case letter |
| RoutineCheckForm.SerialToSearch | src/pages/RoutineCheck.tsx:263 | the serial of a scanned JSON object when it is non-empty, otherwise the scanned text |
| RoutineCheckForm.FindScanned | src/pages/RoutineCheck.tsx:270-272 | the found device has a normalised serial equal to the search, or its id text equals the scanned text; it is the first such device in the list; nothing found exactly when no device does |
| RoutineCheckForm.ScanIgnoresCaseAndSpacing | src/pages/RoutineCheck.tsx:266-272 | a serial read with other case or spacing still finds the device |
| RoutineCheckForm.CacheDevice | src/pages/RoutineCheck.tsx:281-284 | unchanged when a device with the id is cached, otherwise appended at the end |
| RoutineCheckForm.CacheKeepsIdsUnique | src/pages/RoutineCheck.tsx:281-284 | the cache never holds two devices with one id and afterwards holds the new id |
| RoutineCheckForm.InitCriteria | src/pages/RoutineCheck.tsx:97-100 | the record has exactly the criteria keys, all false |
| RoutineCheckForm.ToggleCriterion | src/pages/RoutineCheck.tsx:323-328 | exactly the one key flips; every other key keeps its value |
| RoutineCheckForm.ToggleTwice | src/pages/RoutineCheck.tsx:323-328 | flipping a box twice restores every ticked state |
| RoutineCheckForm.AllPassed | src/pages/RoutineCheck.tsx:359 | passed = total exactly when every active criterion is ticked |
| RoutineCheckForm.PassedMonotone | src/pages/RoutineCheck.tsx:359 | ticking one more box never lowers the passed count |
| RoutineCheckForm.RatingForFailures | src/pages/RoutineCheck.tsx:362-365 | 0, 1, 2 and ≥3 failures give excellent, good, average and needs_maintenance, each exactly |
| RoutineCheckForm.MonthlyState | src/pages/RoutineCheck.tsx:355-369 | the active criteria are the type's when it has any, else all; excellent when there are none; otherwise the rating of total − passed |
| RoutineCheckForm.MonthlyExcellentIffAllTicked | src/pages/RoutineCheck.tsx:355-369 | a monthly check is excellent exactly when every active box is ticked |
| RoutineCheckForm.SaveCheck | src/pages/RoutineCheck.tsx:330-382 | refused first without a device, then for a blank checker, then for a daily non-excellent rating with a blank issue; a daily state is the chosen rating and a monthly state the computed one; criteria only for monthly; issue trimmed or null; checker trimmed; the signature as given, or null when empty |
| ChecksList.FilteredMembers | src/pages/ChecksList.tsx:42-60 | the filtered list holds exactly the checks that pass search (only when the trimmed term is non-empty), state and department (each off on "all") |
| ChecksList.Filtered | src/pages/ChecksList.tsx:39-60 | filtering never adds or duplicates a check |
| ChecksList.FilteredCounts | src/pages/ChecksList.tsx:39-60 | every check that passes the filters keeps its number of copies, every other check has none |
| ChecksList.NoFilterKeepsAll | src/pages/ChecksList.tsx:43-60 | with every filter off nothing is dropped |
| ChecksList.StateRank | src/pages/ChecksList.tsx:70-71 | excellent 1, good or average 2, poor or needs_maintenance 3, anything else 4 |
| ChecksList.SortChecks | src/pages/ChecksList.tsx:63-73 | the array is sorted in place by the chosen key, is a permutation of what it held, and is stable: checks with equal keys keep their relative order |
| ChecksList.SwapKeepsTies | src/pages/ChecksList.tsx:63-73 | exchanging two neighbours with different keys leaves every key's subsequence as it was |
| ChecksList.SinkInto | src/pages/ChecksList.tsx:63-73 | one insertion step extends the sorted prefix by one element, keeps the multiset and keeps checks of equal key in order |
| ChecksList.FilterAndSort | src/pages/ChecksList.tsx:39-76 | the result is sorted by the chosen key, is a permutation of the filtered checks, and checks of equal key keep their order in the loaded list |
| ChecksList.TotalPages | src/pages/ChecksList.tsx:83 | ⌈n/20⌉: the pages cover n, the last one is not empty, and 0 pages only for 0 checks |
| ChecksList.PageOf | src/pages/ChecksList.tsx:84-87 | page p is the slice from (p − 1)·20 of at most 20 checks, empty past the end |
| ChecksList.ShownRangeCountsPage | src/pages/ChecksList.tsx:270 | on an existing page, "start − end" counts exactly the rows shown |
| ChecksList.PagesCoverList | src/pages/ChecksList.tsx:84-87 | the full pages, in order, are the list |
| ChecksList.ChecksView.SetFilters | src/pages/ChecksList.tsx:39-81 | any filter or sort change recomputes the list (a stable sort of the filtered checks) and resets the page to 1 |
| ChecksList.ChecksView.Paginated | src/pages/ChecksList.tsx:84-87 | at most 20 rows, the current page's slice |
| ChecksList.ChecksView.Prev | src/pages/ChecksList.tsx:274 | the page becomes max(1, p − 1) and stays in [1, max(1, totalPages)] |
| ChecksList.ChecksView.Next | src/pages/ChecksList.tsx:282 | with more than one page, the page becomes min(totalPages, p + 1) and stays in range |
| MaintenanceBell.StatusBadge | src/components/Maintenance/MaintenanceBell.tsx:34-48 | overdue shows max(0, days or 0); due_today its label; due_soon shows \|days or 0\|; any other status shows "unspecified" |
| MaintenanceBell.BadgeOfClassified | src/components/Maintenance/MaintenanceBell.tsx:34-48 | for a server-classified item, overdue shows the days past due, due_soon shows the days until due (between 1 and the window), no_date shows "unspecified" |
| MaintenanceBell.ServerItemBadge | src/components/Maintenance/MaintenanceBell.tsx:34-48 | the same for every item of the server's due list |
| MaintenanceBell.BadgeText | src/components/Maintenance/MaintenanceBell.tsx:149-153 | hidden iff totalDue ≤ 0; "99+" above 99; otherwise the decimal number, which reads back as totalDue |
| MaintenanceBell.BadgeShownIffSomethingDue | src/components/Maintenance/MaintenanceBell.tsx:149-153 | with the server's summary, the badge shows exactly when some device is overdue, due today or due within the window |
| MaintenanceBell.Bell.LoadSummary | src/components/Maintenance/MaintenanceBell.tsx:71-83 | nothing when disabled or on failure; the answer's data, or all zeros when it has none |
| MaintenanceBell.Bell.LoadList | src/components/Maintenance/MaintenanceBell.tsx:85-102 | no request when disabled or within 20 s of the last load while items are shown; a success replaces the items and records now; a failure empties the items and keeps the time |
| MaintenanceBell.ThrottleExample | src/components/Maintenance/MaintenanceBell.tsx:87-95 | a second load within 20 s of a successful one with items makes no request and keeps the items |
| DeviceForm.DigitsOnly | src/pages/DeviceNew.tsx:154-158 | only the characters 0-9 remain; a string of digits is kept as it is; nothing is added |
| DeviceForm.DigitsOnlyAppend | src/pages/DeviceNew.tsx:156 | the digit filter distributes over concatenation, so the digits keep their order |
| DeviceForm.SetText | src/pages/DeviceNew.tsx:145-162 | a text input never touches the optional fields (signature, photo, manufacturer URL, description), the contract photos or the warranty flag; typing into the cost keeps only its digits, into the name or the department changes only that field |
| DeviceForm.SetTextWritesOneField | src/pages/DeviceNew.tsx:145-162 | handleChange writes exactly the named input (the cost its digits only); every other text input keeps its text |
| DeviceForm.RemoveAt | src/pages/DeviceNew.tsx:195-200 | exactly the photo at the index is removed, the others keep their order; an index out of range removes nothing |
| DeviceForm.OrNull | src/pages/DeviceNew.tsx:222-226 | `x \|\| null`: kept iff present and non-empty |
| DeviceForm.TextOrNull | src/pages/DeviceNew.tsx:227-229 | null exactly for the empty text |
| DeviceForm.NumberOrNull | src/pages/DeviceNew.tsx:220-230 | null for the empty text; a number exactly when Number reads one |
| DeviceForm.BuildPayload | src/pages/DeviceNew.tsx:218-233 | is_under_warranty is 1 or 0; the expiry date only under warranty; contract photos only when there are some; ids and cost as numbers or null; signature, photo, manufacturer URL and description null when missing or empty; engineer phone and the next and last maintenance dates null when empty; the other text fields passed as typed |
| DeviceForm.TypedCostIsSent | src/pages/DeviceNew.tsx:154-230 | a cost typed through the form reaches the payload as the value of its digits |
| DeviceForm.ResetAfterCreate | src/pages/DeviceNew.tsx:243-268 | every listed field back to its start value; the department is kept |
| DeviceForm.DeviceEditor.Change | src/pages/DeviceNew.tsx:145-162 | the form after a text change |
| DeviceForm.DeviceEditor.SetWarranty | src/pages/DeviceNew.tsx:148-151 | the check-box sets only the warranty flag |
| DeviceForm.DeviceEditor.AddContractPhoto | src/pages/DeviceNew.tsx:183-186 | an upload is appended at the end |
| DeviceForm.DeviceEditor.RemoveContractPhoto | src/pages/DeviceNew.tsx:195-200 | exactly the photo at the index is removed |
| DeviceForm.DeviceEditor.DoSave | src/pages/DeviceNew.tsx:210-279 | refused, with the form unchanged, without a cost; otherwise the payload is sent as an update when editing; the form is reset only after a successful create |
| DeviceForm.ResetFormNeedsCost | src/pages/DeviceNew.tsx:211-265 | a form just reset cannot be saved until a cost is typed, and keeps its department |
| DeviceForm.AddThenRemovePhoto | src/pages/DeviceNew.tsx:183-200 | appending a photo and removing it by its index restores the list |
| LabelDesigner.JsRoundHalf | src/components/LabelDesigner.tsx:33 | `Math.round(n / 2)` of an integer is ⌊(n + 1)/2⌋ |
| LabelDesigner.ComputeLeft | src/components/LabelDesigner.tsx:25-35 | bottom-left is the margin; bottom-right is max(margin, W − q − margin); centre is max(margin, ⌊(W − q + 1)/2⌋); never below the margin |
| LabelDesigner.AnchoredQrFits | src/components/LabelDesigner.tsx:25-35 | when the QR fits with margins, every anchor keeps it inside the label with the margin to its right |
| LabelDesigner.ClampOffset | src/components/LabelDesigner.tsx:261-262 | the offset is kept in [0, room]: never negative, never beyond room when room ≥ 0, unchanged when already inside |
| LabelDesigner.ClampIdempotent | src/components/LabelDesigner.tsx:96-101 | re-clamping a clamped offset changes nothing |
| LabelDesigner.ExportPixelRatio | src/components/LabelDesigner.tsx:174 | the pixel ratio is the chosen scale clamped to [1, 4] |
| LabelDesigner.QrPlacer.Sync | src/components/LabelDesigner.tsx:91-103 | with drag off the offsets snap to computeLeft and H − q − 8; with drag on they are re-clamped into the label |
| LabelDesigner.QrPlacer.PointerDown | src/components/LabelDesigner.tsx:245-252 | with drag on, dragging starts and the grab point inside the QR is recorded |
| LabelDesigner.QrPlacer.PointerMove | src/components/LabelDesigner.tsx:254-266 | while dragging, the offsets follow the pointer, clamped to the label |
| LabelDesigner.QrPlacer.PointerUp | src/components/LabelDesigner.tsx:268-272 | with drag on, dragging ends; nothing else changes |
| LabelDesigner.QrPlacer.Reset | src/components/LabelDesigner.tsx:297-300 | position bottom-centre with offsets ((W − q)/2, H − q − 8); sizes, drag switch, drag state and grab point unchanged |
| LabelDesigner.QrPlacer.ApplyReset | src/components/LabelDesigner.tsx:277-301 | a commit that runs the reset effect (mount, new trigger, new label or QR size): the sizes take their new values and the QR is bottom-centre at ((W − q)/2, H − q − 8), re-snapped or re-clamped by the next render only when it was elsewhere before |
| LabelDesigner.DragBy | src/components/LabelDesigner.tsx:245-272 | grab, move by (dx, dy), release: the QR moves by (dx, dy) clamped to the label, without a jump when grabbed |
| LabelDesigner.ResetInLabel | src/components/LabelDesigner.tsx:297-300 | a reset QR lies inside the label whenever it fits with 8 px to spare below |
| AdminControl.Without | src/pages/AdminControl.tsx:228 | `filter(p => p !== x)`: x is gone, every other value is kept, and the order is kept |
| AdminControl.TogglePrivilege | src/pages/AdminControl.tsx:226-232 | a held privilege is removed (every copy), a missing one is appended at the end; membership of every other privilege is unchanged |
| AdminControl.ToggleKeepsOthers | src/pages/AdminControl.tsx:226-232 | apart from the toggled id the list is exactly what it was, in order and with its copies |
| AdminControl.ToggleTwice | src/pages/AdminControl.tsx:226-232 | toggling twice restores membership, and the list itself when the id was not held |
| AdminControl.SetCriterionChecked | src/pages/AdminControl.tsx:994-999 | checking appends the id; unchecking removes every copy and keeps the order of the rest |
| AdminControl.RoleText | src/pages/AdminControl.tsx:240-242 | the admin label exactly for "admin", the user label otherwise |
| AdminControl.StatusText | src/pages/AdminControl.tsx:250-252 | the active label exactly for "active", the disabled label otherwise |
| AdminControl.AddUserRefusedIffBlankField | src/pages/AdminControl.tsx:171-175 | adding a user is refused exactly when the username, password or name is empty or white space only |
| AdminControl.AddDeviceTypeRefusedIffBlank | src/pages/AdminControl.tsx:77-81 | adding a device type is refused exactly when its Arabic name is white space only |
| AdminControl.UpdateCriterionRefusedIffBlank | src/pages/AdminControl.tsx:291-295 | an update is refused exactly when nothing is being edited or its key or label is white space only |
| Auth.NormalizePrivileges | src/store/AuthContext.tsx:65-77 | after login the privileges are always an array: text that does not parse or a non-array becomes [] |
| Auth.PrivilegeRules | src/store/AuthContext.tsx:92-98 | no user holds nothing; an admin holds everything; anyone else holds exactly the listed names |
| Auth.UnreadablePrivilegesGrantNothing | src/store/AuthContext.tsx:65-77 | a non-admin whose privilege text is unreadable or not an array holds nothing |
| Auth.AuthProvider.Restore | src/store/AuthContext.tsx:29-40 | a stored user that parses is restored, an unreadable one is dropped, and loading ends either way |
| Auth.AuthProvider.Login | src/store/AuthContext.tsx:42-85 | an HTTP error, a body without success or without a user leaves the session as it was; otherwise the user, with normalised privileges, becomes the session user |
| Auth.AuthProvider.Logout | src/store/AuthContext.tsx:87-90 | the user is cleared, so the session is not authenticated and every privilege check fails |
| Auth.LoginThenCheck | src/store/AuthContext.tsx:63-98 | after a successful login a privilege is held exactly when the user is an admin or the normalised list names it |
| AppRoutes.ProtectedRoute | src/App.tsx:20-62 | the spinner iff loading; then the login redirect iff there is no user; then the forbidden panel iff a non-empty required privilege is not held; otherwise the children |
| AppRoutes.RequiredFor | src/App.tsx:231-243 | every page but home and contact asks for a non-empty privilege |
| AppRoutes.Access | src/App.tsx:227-243 | a page is forbidden exactly when a signed-in user lacks the privilege its own guard asks for |
| AppRoutes.AccessRules | src/App.tsx:227-243 | while loading every page is the spinner; with no user every page redirects to login; an admin sees every page |
| AppRoutes.VisibleLinks | src/App.tsx:74-82 | a link is kept iff it has no privilege or the privilege is held; the kept links are in their original order |
| AppRoutes.AllShownKeepsAll | src/App.tsx:82 | when every link is shown the list is kept as it is |
| AppRoutes.AdminSeesAllLinks | src/App.tsx:74-82 | an admin sees every link, in the declared order |
| AppRoutes.HiddenPrefixVanishes | src/App.tsx:82 | links the user may not see vanish from the front of the list |
| AppRoutes.UnprivilegedSeesHomeAndContact | src/App.tsx:74-82 | a non-admin with no privilege sees only the home and contact links |
| AppRoutes.LinksMatchRoutes | src/App.tsx:231-243 | each link asks for the same privilege as its page's route |
| AppRoutes.VisibleLinksOpen | src/App.tsx:231-243 | every link a signed-in user sees opens a page that user may see |
| AppRoutes.ActiveRules | src/App.tsx:84-87 | isActive("/") holds iff the path is exactly "/"; any other link is active iff the path starts with it, and always on its own path |

## Left out

- Network, storage, clocks and randomness are parameters.
  - The server's `new Date()` becomes `today`; the bell's `Date.now()` becomes `now`.
  - `fetch` answers become `LoginAnswer` and `Fetch`.
  - localStorage reads become the `Stored` parameter.
  - `uid()` ids and `last_row_id` become fresh-id parameters.
  - JSON.parse outcomes are given with their text.
  - Timers, intervals and the asynchronous ordering of React state updates are not modelled.
- Dates are whole day numbers.
  - Real date-string parsing, time zones and `julianday` rounding are not modelled.
  - Malformed dates are modelled only as the whitespace-only case, plus a NaN time for `addDevice`.
- SQL text, parameter binding, JOINs for display names, `Response`/CORS plumbing and request parsing are not modelled. The other endpoints (users, reports, stats, templates, contact) are not part of this model.
- BackendTables.ListDevices: the rows are taken as already in the ORDER BY order (created_at or name). The sort itself is not modelled. page and limit are taken as integers; `parseInt`'s NaN for non-numeric text is not modelled.
- BackendTables.MatchingDevices: `LIKE '%q%'` treats `%` and `_` inside q as wildcards (any run, any one character). The model matches them literally, so for a q holding either character it keeps fewer rows than SQLite does.
- BackendTables.Database.CreateDevice: the column list of the INSERT is reduced to the fields the model reads.
- MaintenanceApi.SortDue: SQL leaves the order among equal keys open. The model proves only "sorted and a permutation", not a particular tie order.
- DueReport.SortReport: JavaScript's comparator returns NaN when days_overdue is NaN (a whitespace-only date), and no total order reproduces that. The model places NaN days after the numeric ones of the same rank.
- MaintenanceApi.DueQuery: `parseInt` of a non-numeric days/limit/offset gives NaN, and `Math.min`/`Math.max` then propagate it. The model takes the parameters as integers.
- Lower-casing and `COLLATE NOCASE` fold ASCII letters only. JavaScript's full Unicode `toLowerCase` is not modelled.
- `trim()` and `\s` are modelled with the ECMAScript white-space and line-terminator set (`Common.IsSpace`): space, tab, line feed, carriage return, vertical tab, form feed, no-break space, U+1680, U+2000 to U+200A, U+2028, U+2029, U+202F, U+205F, U+3000 and the BOM. SQLite's `TRIM` in the due-status query strips spaces only; `DueStatus.SqlNoDate` models that separately, and the two are not unified.
- DeviceForm.NumberOrNull: `Number()` is modelled on plain decimal digits. Padded text, signs, decimals and hexadecimal are read as "not a number" (null).
- An absent optional field of a local device is treated as the empty string.
- LabelDesigner:
  - Sizes are whole pixels; offsets and pointer positions are reals.
  - `cmToPx`, `labelScale` and the pointer-to-label conversion are not modelled.
  - The rendering, the PNG export and the print window are not modelled.
- LabelDesigner.QrPlacer.Reset: the reset offsets are neither rounded nor clamped, as in the source. ResetInLabel states when they still land inside the label.
- LabelDesigner.QrPlacer.Sync: the reset effect also depends on the label and QR sizes, and the device page always passes a numeric trigger (starting at 0), so the reset runs on mount and after every resize. Its plain offset values replace the snap or clamp of the same commit; ApplyReset models that commit. Which effects a render runs is otherwise left to the caller, which invokes Sync, Reset or ApplyReset.
- Auth.AuthProvider.Restore: the stored user is restored as saved. Its privileges are not normalised again.
- AdminControl.SetCriterionChecked: checking an id that is already listed appends a second copy, as the source does.
- AppRoutes.Access: routes are identified by the `Page` enumeration. URL parsing, the `:deviceId` parameter and the catch-all redirect are not modelled.
- Rendering-only components and pages (SignaturePad, QRGenerator, ImagePreview, Footer, Login, Dashboard, DeviceDetail, DepartmentsList, DevicesList, CriteriaForm, CriteriaList, Reports) are not part of this model.
