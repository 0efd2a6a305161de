/** The decision logic of the routine-check page (src/pages/RoutineCheck.tsx):
    the device picker's filter, the local match of a scanned code, the local
    device cache, the criteria check-boxes, and saveCheck's validation,
    rating rule and payload. The network calls and timers around them are
    not modelled; their results are parameters. */
module RoutineCheckForm {
  import opened Common

  /** The fields of a device the page matches on. */
  datatype Device = Device(id: nat, name: string, serial: string, departmentId: Option<nat>)

  // ---------------------------------------------------------------- picker

  /** `filteredDevices`: nothing until a search text or a department is
      chosen; then name or serial must contain the search text (case
      ignored) and the department id, as text, must equal the chosen one. */
  predicate PickerMatches(d: Device, search: string, department: string)
  {
    && (search == [] || Contains(Lower(d.name), Lower(search)) || Contains(Lower(d.serial), Lower(search)))
    && (department == [] || IdText(d.departmentId) == department)
  }

  function FilteredDevices(devices: seq<Device>, search: string, department: string): (r: seq<Device>)
    ensures search == [] && department == [] ==> r == []
    ensures search != [] || department != [] ==>
              forall d :: d in r <==> d in devices && PickerMatches(d, search, department)
    ensures |r| <= |devices|
    ensures IsSubsequence(r, devices)
  {
    if search == [] && department == [] then [] else KeepPicked(devices, search, department)
  }

  function KeepPicked(devices: seq<Device>, search: string, department: string): (r: seq<Device>)
    ensures forall d :: d in r <==> d in devices && PickerMatches(d, search, department)
    ensures |r| <= |devices|
    ensures IsSubsequence(r, devices)
  {
    if devices == [] then []
    else if PickerMatches(devices[0], search, department) then
      [devices[0]] + KeepPicked(devices[1..], search, department)
    else KeepPicked(devices[1..], search, department)
  }

  /** With a search text alone, a device whose name is exactly the search
      text (in any ASCII case) is offered. */
  lemma ExactNameOffered(devices: seq<Device>, d: Device, search: string)
    requires d in devices && search != [] && Lower(d.name) == Lower(search)
    ensures d in FilteredDevices(devices, search, [])
  {
    assert OccursAt(Lower(d.name), Lower(search), 0);
  }

  // ----------------------------------------------------------- scan match

  /** Replaces every maximal run of white space by one space (`/\s+/g`). */
  function CollapseSpaces(s: string): (r: string)
    ensures |r| <= |s|
    ensures s == [] <==> r == []
    decreases |s|
  {
    if s == [] then []
    else if IsSpace(s[0]) then [' '] + CollapseSpaces(DropSpaces(s))
    else [s[0]] + CollapseSpaces(s[1..])
  }

  /** The string after its leading run of white space. */
  function DropSpaces(s: string): (r: string)
    ensures |r| <= |s|
    ensures s != [] && IsSpace(s[0]) ==> |r| < |s|
    ensures r == [] || !IsSpace(r[0])
  {
    if s == [] || !IsSpace(s[0]) then s else DropSpaces(s[1..])
  }

  /** What DropSpaces leaves is a suffix of its argument. */
  lemma {:induction false} DropSpacesSuffix(s: string)
    ensures DropSpaces(s) == s[|s| - |DropSpaces(s)|..]
    ensures forall i :: 0 <= i < |s| - |DropSpaces(s)| ==> IsSpace(s[i])
  {
    if s != [] && IsSpace(s[0]) {
      DropSpacesSuffix(s[1..]);
    }
  }

  /** The collapsed string keeps the white-space-ness of both ends. */
  lemma {:induction false} CollapseEnds(s: string)
    requires s != []
    ensures IsSpace(CollapseSpaces(s)[0]) <==> IsSpace(s[0])
    ensures IsSpace(CollapseSpaces(s)[|CollapseSpaces(s)| - 1]) <==> IsSpace(s[|s| - 1])
    decreases |s|
  {
    var r := CollapseSpaces(s);
    if IsSpace(s[0]) {
      var t := DropSpaces(s);
      DropSpacesSuffix(s);
      if t != [] {
        CollapseEnds(t);
        assert t[|t| - 1] == s[|s| - 1];
        assert r[|r| - 1] == CollapseSpaces(t)[|CollapseSpaces(t)| - 1];
      }
    } else if |s| > 1 {
      CollapseEnds(s[1..]);
      assert r[|r| - 1] == CollapseSpaces(s[1..])[|CollapseSpaces(s[1..])| - 1];
    }
  }

  /** In the collapsed string white space is a single ' ', never two in a
      row, and no ASCII upper-case letter appears unless one was there. */
  lemma {:induction false} CollapseShape(s: string)
    ensures var r := CollapseSpaces(s);
            && (forall i :: 0 <= i < |r| ==> (IsSpace(r[i]) <==> r[i] == ' '))
            && (forall i :: 0 <= i < |r| - 1 ==> !(r[i] == ' ' && r[i + 1] == ' '))
            && ((forall i :: 0 <= i < |s| ==> !('A' <= s[i] <= 'Z')) ==> forall i :: 0 <= i < |r| ==> !('A' <= r[i] <= 'Z'))
    decreases |s|
  {
    if s != [] {
      var r := CollapseSpaces(s);
      if IsSpace(s[0]) {
        var t := DropSpaces(s);
        DropSpacesSuffix(s);
        CollapseShape(t);
        if t != [] {
          CollapseEnds(t);
        }
        assert forall i :: 0 < i < |r| ==> r[i] == CollapseSpaces(t)[i - 1];
        assert (forall i :: 0 <= i < |s| ==> !('A' <= s[i] <= 'Z')) ==> forall i :: 0 <= i < |t| ==> !('A' <= t[i] <= 'Z') by {
          forall i | 0 <= i < |t| ensures t[i] == s[|s| - |t| + i] { }
        }
      } else {
        CollapseShape(s[1..]);
        if |s| > 1 {
          CollapseEnds(s[1..]);
        }
        assert forall i :: 0 < i < |r| ==> r[i] == CollapseSpaces(s[1..])[i - 1];
      }
    }
  }

  /** normalize: trim, lower-case, collapse white-space runs. */
  function Normalize(s: string): string
  {
    CollapseSpaces(Lower(Trim(s)))
  }

  /** A normalized string has no white space at either end, no white space
      other than single spaces, and no ASCII upper-case letter. */
  predicate IsNormal(s: string)
  {
    && (s == [] || (!IsSpace(s[0]) && !IsSpace(s[|s| - 1])))
    && (forall i :: 0 <= i < |s| ==> (IsSpace(s[i]) <==> s[i] == ' '))
    && (forall i :: 0 <= i < |s| - 1 ==> !(s[i] == ' ' && s[i + 1] == ' '))
    && (forall i :: 0 <= i < |s| ==> !('A' <= s[i] <= 'Z'))
  }

  lemma NormalizeIsNormal(s: string)
    ensures IsNormal(Normalize(s))
  {
    var t := Trim(s);
    TrimEdges(s);
    var l := Lower(t);
    LowerFacts(t);
    CollapseShape(l);
    var r := CollapseSpaces(l);
    assert Normalize(s) == r;
    if l != [] {
      CollapseEnds(l);
      assert !IsSpace(l[0]) && !IsSpace(l[|l| - 1]);
      assert !IsSpace(r[0]) && !IsSpace(r[|r| - 1]);
    }
  }

  /** Lower-casing keeps white space where it was and leaves no ASCII
      upper-case letter. */
  lemma LowerFacts(t: string)
    ensures forall i :: 0 <= i < |t| ==> (IsSpace(Lower(t)[i]) <==> IsSpace(t[i]))
    ensures forall i :: 0 <= i < |t| ==> !('A' <= Lower(t)[i] <= 'Z')
  {
  }

  /** A normal string is left as it is. */
  lemma NormalStable(s: string)
    requires IsNormal(s)
    ensures Normalize(s) == s
  {
    assert TrimStart(s) == s;
    assert TrimEnd(s) == s;
    LowerKeeps(s);
    CollapseKeeps(s);
  }

  lemma {:induction false} LowerKeeps(s: string)
    requires forall i :: 0 <= i < |s| ==> !('A' <= s[i] <= 'Z')
    ensures Lower(s) == s
  {
  }

  lemma {:induction false} CollapseKeeps(s: string)
    requires forall i :: 0 <= i < |s| ==> (IsSpace(s[i]) <==> s[i] == ' ')
    requires forall i :: 0 <= i < |s| - 1 ==> !(s[i] == ' ' && s[i + 1] == ' ')
    ensures CollapseSpaces(s) == s
    decreases |s|
  {
    if s != [] {
      if IsSpace(s[0]) {
        if |s| > 1 {
          assert !IsSpace(s[1]);
          assert DropSpaces(s) == s[1..];
        } else {
          assert DropSpaces(s) == [];
        }
        CollapseKeeps(DropSpaces(s));
        assert s == [' '] + s[1..];
      } else {
        CollapseKeeps(s[1..]);
        assert s == [s[0]] + s[1..];
      }
    }
  }

  /** normalize is idempotent. */
  lemma NormalizeIdempotent(s: string)
    ensures Normalize(Normalize(s)) == Normalize(s)
  {
    NormalizeIsNormal(s);
    NormalStable(Normalize(s));
  }

  /** The text searched for: the `serial` of a scanned JSON object when it is
      a non-empty string, otherwise the raw scanned text. */
  function SerialToSearch(scanned: string, jsonSerial: Option<string>): (r: string)
    ensures jsonSerial.Some? && jsonSerial.value != [] ==> r == jsonSerial.value
    ensures jsonSerial.None? || jsonSerial.value == [] ==> r == scanned
  {
    if jsonSerial.Some? && jsonSerial.value != [] then jsonSerial.value else scanned
  }

  /** The local `find`: the normalized serial equals the normalized search
      text, or the id as text equals the raw scanned text. */
  predicate ScanMatches(d: Device, scanned: string, search: string)
  {
    Normalize(d.serial) == Normalize(search) || NatToString(d.id) == scanned
  }

  /** `allDevices.find(...)`: the first device that matches, if any. */
  function FindScanned(devices: seq<Device>, scanned: string, search: string): (r: Option<Device>)
    ensures r.Some? ==> r.value in devices && ScanMatches(r.value, scanned, search)
    ensures r.None? <==> forall i | 0 <= i < |devices| :: !ScanMatches(devices[i], scanned, search)
    ensures r.Some? ==> exists i | 0 <= i < |devices| :: devices[i] == r.value && NoScanMatchBefore(devices, scanned, search, i)
  {
    if devices == [] then None
    else if ScanMatches(devices[0], scanned, search) then Some(devices[0])
    else
      var r := FindScanned(devices[1..], scanned, search);
      FirstScanMatchShifts(devices, scanned, search, r);
      r
  }

  /** No device before position i matches the scan. */
  predicate NoScanMatchBefore(devices: seq<Device>, scanned: string, search: string, i: int)
  {
    forall j | 0 <= j < i && j < |devices| :: !ScanMatches(devices[j], scanned, search)
  }

  /** A first match in the tail is a first match in the whole list when the
      head does not match. */
  lemma FirstScanMatchShifts(devices: seq<Device>, scanned: string, search: string, r: Option<Device>)
    requires devices != [] && !ScanMatches(devices[0], scanned, search)
    requires r.Some? ==> exists i | 0 <= i < |devices[1..]| ::
               devices[1..][i] == r.value && NoScanMatchBefore(devices[1..], scanned, search, i)
    ensures r.Some? ==> exists i | 0 <= i < |devices| ::
              devices[i] == r.value && NoScanMatchBefore(devices, scanned, search, i)
  {
    if r.Some? {
      var i :| 0 <= i < |devices[1..]| && devices[1..][i] == r.value && NoScanMatchBefore(devices[1..], scanned, search, i);
      assert devices[i + 1] == r.value;
      assert NoScanMatchBefore(devices, scanned, search, i + 1);
    }
  }

  /** A serial read with different case or spacing still finds the device. */
  lemma ScanIgnoresCaseAndSpacing(devices: seq<Device>, d: Device, scanned: string)
    requires d in devices && Normalize(scanned) == Normalize(d.serial)
    ensures FindScanned(devices, scanned, SerialToSearch(scanned, None)).Some?
  {
    var i :| 0 <= i < |devices| && devices[i] == d;
  }

  /** The local cache append after a server hit: unchanged when a device
      with the same id is cached, otherwise the device is added at the end. */
  function CacheDevice(cache: seq<Device>, d: Device): (r: seq<Device>)
    ensures (exists i | 0 <= i < |cache| :: cache[i].id == d.id) ==> r == cache
    ensures (forall i | 0 <= i < |cache| :: cache[i].id != d.id) ==> r == cache + [d]
  {
    if exists i | 0 <= i < |cache| :: cache[i].id == d.id then cache else cache + [d]
  }

  predicate IdsUnique(cache: seq<Device>)
  {
    forall i, j :: 0 <= i < j < |cache| ==> cache[i].id != cache[j].id
  }

  /** The cache never holds two devices with the same id, and afterwards
      it holds one with the new device's id. */
  lemma CacheKeepsIdsUnique(cache: seq<Device>, d: Device)
    requires IdsUnique(cache)
    ensures IdsUnique(CacheDevice(cache, d))
    ensures exists i | 0 <= i < |CacheDevice(cache, d)| :: CacheDevice(cache, d)[i].id == d.id
  {
    if forall i | 0 <= i < |cache| :: cache[i].id != d.id {
      assert CacheDevice(cache, d)[|cache|].id == d.id;
    }
  }

  // ------------------------------------------------------------- criteria

  /** The `forEach` that builds the check-box record: every key false. */
  method InitCriteria(keys: seq<string>) returns (m: map<string, bool>)
    ensures m.Keys == set i | 0 <= i < |keys| :: keys[i]
    ensures forall k | k in m :: !m[k]
  {
    m := map[];
    var i := 0;
    while i < |keys|
      invariant 0 <= i <= |keys|
      invariant m.Keys == set j | 0 <= j < i :: keys[j]
      invariant forall k | k in m :: !m[k]
    {
      m := m[keys[i] := false];
      i := i + 1;
    }
  }

  /** `criteria[key]` read as a condition: a missing key is falsy. */
  predicate Ticked(m: map<string, bool>, key: string)
  {
    key in m && m[key]
  }

  /** handleCriteriaChange: flips one key; a missing key becomes true. */
  function ToggleCriterion(m: map<string, bool>, key: string): (r: map<string, bool>)
    ensures r.Keys == m.Keys + {key}
    ensures Ticked(r, key) <==> !Ticked(m, key)
    ensures forall k | k in m && k != key :: r[k] == m[k]
  {
    m[key := !Ticked(m, key)]
  }

  /** Flipping the same box twice restores every ticked state. */
  lemma ToggleTwice(m: map<string, bool>, key: string)
    ensures forall k :: Ticked(ToggleCriterion(ToggleCriterion(m, key), key), k) <==> Ticked(m, k)
  {
  }

  // ----------------------------------------------------------- saveCheck

  datatype CheckType = Daily | Monthly

  datatype SaveError = NoDevice | CheckerRequired | IssueRequired

  datatype Payload = Payload(
    deviceId: nat, state: string, checkType: CheckType, criteria: Option<map<string, bool>>,
    issue: Option<string>, checkerName: string, signature: Option<string>)

  datatype SaveResult = Saved(payload: Payload) | Refused(error: SaveError)

  /** How many of the active criteria are ticked (`filter(...).length`). */
  function PassedCount(active: seq<string>, m: map<string, bool>): (n: nat)
    ensures n <= |active|
  {
    if active == [] then 0 else (if Ticked(m, active[0]) then 1 else 0) + PassedCount(active[1..], m)
  }

  /** Every criterion passes exactly when all active keys are ticked. */
  lemma {:induction false} AllPassed(active: seq<string>, m: map<string, bool>)
    ensures PassedCount(active, m) == |active| <==> forall i :: 0 <= i < |active| ==> Ticked(m, active[i])
  {
    if active != [] {
      AllPassed(active[1..], m);
      assert forall i :: 0 < i < |active| ==> active[i] == active[1..][i - 1];
    }
  }

  /** Ticking one more box never lowers the number passed. */
  lemma {:induction false} PassedMonotone(active: seq<string>, m: map<string, bool>, key: string)
    requires !Ticked(m, key)
    ensures PassedCount(active, ToggleCriterion(m, key)) >= PassedCount(active, m)
  {
    if active != [] {
      PassedMonotone(active[1..], m, key);
    }
  }

  /** The rating for a number of failed criteria. */
  function RatingForFailures(failed: nat): (r: string)
    ensures failed == 0 <==> r == "excellent"
    ensures failed == 1 <==> r == "good"
    ensures failed == 2 <==> r == "average"
    ensures failed >= 3 <==> r == "needs_maintenance"
  {
    if failed == 0 then "excellent"
    else if failed == 1 then "good"
    else if failed == 2 then "average"
    else "needs_maintenance"
  }

  /** The monthly state: the device type's criteria when it has any,
      otherwise every criterion; excellent when there are none at all. */
  function MonthlyState(typeCriteria: seq<string>, allCriteria: seq<string>, m: map<string, bool>): (r: string)
    ensures var active := if |typeCriteria| > 0 then typeCriteria else allCriteria;
            && (active == [] ==> r == "excellent")
            && (active != [] ==> r == RatingForFailures(|active| - PassedCount(active, m)))
  {
    var active := if |typeCriteria| > 0 then typeCriteria else allCriteria;
    if |active| > 0 then RatingForFailures(|active| - PassedCount(active, m)) else "excellent"
  }

  /** A monthly check is rated excellent exactly when every active box is ticked. */
  lemma MonthlyExcellentIffAllTicked(typeCriteria: seq<string>, allCriteria: seq<string>, m: map<string, bool>)
    ensures var active := if |typeCriteria| > 0 then typeCriteria else allCriteria;
            MonthlyState(typeCriteria, allCriteria, m) == "excellent"
            <==> forall i :: 0 <= i < |active| ==> Ticked(m, active[i])
  {
    var active := if |typeCriteria| > 0 then typeCriteria else allCriteria;
    AllPassed(active, m);
  }

  /** saveCheck: the device, then the checker's name, then (daily only) an
      issue note whenever the rating is not excellent; the payload carries
      the criteria record only for a monthly check. */
  function SaveCheck(device: Option<Device>, checkerName: string, checkType: CheckType, dailyRating: string,
                     issue: string, typeCriteria: seq<string>, allCriteria: seq<string>,
                     m: map<string, bool>, signature: string): (r: SaveResult)
    ensures r == Refused(NoDevice) <==> device.None?
    ensures r == Refused(CheckerRequired) <==> device.Some? && IsBlank(checkerName)
    ensures r == Refused(IssueRequired) <==>
              device.Some? && !IsBlank(checkerName) && checkType == Daily && dailyRating != "excellent" && IsBlank(issue)
    ensures r.Saved? ==> && r.payload.deviceId == device.value.id
                         && r.payload.checkType == checkType
                         && (checkType == Daily ==> r.payload.state == dailyRating)
                         && (checkType == Monthly ==> r.payload.state == MonthlyState(typeCriteria, allCriteria, m))
                         && (r.payload.criteria.Some? <==> checkType == Monthly)
                         && (r.payload.criteria.Some? ==> r.payload.criteria.value == m)
                         && (r.payload.issue.None? <==> IsBlank(issue))
                         && (r.payload.issue.Some? ==> r.payload.issue.value == Trim(issue))
                         && r.payload.checkerName == Trim(checkerName)
                         && (r.payload.signature.None? <==> signature == [])
                         && (r.payload.signature.Some? ==> r.payload.signature.value == signature)
  {
    if device.None? then Refused(NoDevice)
    else if IsBlank(checkerName) then Refused(CheckerRequired)
    else if checkType == Daily && dailyRating != "excellent" && IsBlank(issue) then Refused(IssueRequired)
    else
      var state := if checkType == Daily then dailyRating else MonthlyState(typeCriteria, allCriteria, m);
      Saved(Payload(
        device.value.id, state, checkType,
        if checkType == Monthly then Some(m) else None,
        if IsBlank(issue) then None else Some(Trim(issue)),
        Trim(checkerName),
        if signature == [] then None else Some(signature)))
  }
}
