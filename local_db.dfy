/** The browser-side registry of src/store/localDB.ts: departments, devices
    and routine checks kept as lists (in localStorage) and appended to by
    validated add operations. Each list becomes a field of a LocalStore
    object; reading a list and writing it back is a field update. The
    generated ids (`uid(prefix)`, built from the clock and Math.random) are
    parameters. */
module LocalDb {
  import opened Common

  datatype Department = Department(id: string, name: string, devicesCount: int)

  /** `new Date(text).getTime()`: a number of milliseconds or NaN. */
  datatype DateInput = DateInput(text: string, time: JsNum)

  /** The fields of a device the registry looks at; an absent optional field
      behaves as the empty string. */
  datatype Device = Device(
    id: string, name: string, supplier: string, manufacturer: string, serial: string,
    departmentId: string, installDate: DateInput, supplyDate: DateInput)

  datatype RoutineCheck = RoutineCheck(id: string, deviceId: string, date: string, state: string, checkerName: string)

  datatype AddError =
    | NameTaken
    | NameRequired | SupplierRequired | ManufacturerRequired | SerialRequired | DepartmentRequired
    | DuplicateSerial | InstallBeforeSupply
    | DeviceIdRequired | DateRequired | StateRequired | CheckerRequired | DeviceNotFound

  datatype Outcome<T> = Added(value: T) | Rejected(error: AddError)

  /** `a.trim().toLowerCase() === b.trim().toLowerCase()`. */
  predicate SameFolded(a: string, b: string)
  {
    Lower(Trim(a)) == Lower(Trim(b))
  }

  /** `list.some(d => ...)` in addDepartment. */
  predicate NameExists(deps: seq<Department>, name: string)
  {
    exists i | 0 <= i < |deps| :: SameFolded(deps[i].name, name)
  }

  /** No two departments share a name after trimming and lower-casing. */
  predicate NamesUnique(deps: seq<Department>)
  {
    forall i, j :: 0 <= i < j < |deps| ==> !SameFolded(deps[i].name, deps[j].name)
  }

  /** No two devices share a serial after trimming and lower-casing. */
  predicate SerialsUnique(devs: seq<Device>)
  {
    forall i, j :: 0 <= i < j < |devs| ==> !SameFolded(devs[i].serial, devs[j].serial)
  }

  /** findDeviceBySerial: the first device whose serial matches after
      trimming and lower-casing. */
  function FindBySerial(devs: seq<Device>, serial: string): (r: Option<Device>)
    ensures r.Some? ==> r.value in devs && SameFolded(r.value.serial, serial)
    ensures r.None? <==> forall i | 0 <= i < |devs| :: !SameFolded(devs[i].serial, serial)
    ensures r.Some? ==> exists i | 0 <= i < |devs| :: devs[i] == r.value && NoMatchBefore(devs, serial, i)
  {
    if devs == [] then None
    else if SameFolded(devs[0].serial, serial) then Some(devs[0])
    else
      var r := FindBySerial(devs[1..], serial);
      FirstMatchShifts(devs, serial, r);
      r
  }

  /** No device before position i matches the serial. */
  predicate NoMatchBefore(devs: seq<Device>, serial: string, i: int)
  {
    forall j | 0 <= j < i && j < |devs| :: !SameFolded(devs[j].serial, serial)
  }

  /** A first match in the tail is a first match in the whole list when the
      head does not match. */
  lemma FirstMatchShifts(devs: seq<Device>, serial: string, r: Option<Device>)
    requires devs != [] && !SameFolded(devs[0].serial, serial)
    requires r.Some? ==> exists i | 0 <= i < |devs[1..]| :: devs[1..][i] == r.value && NoMatchBefore(devs[1..], serial, i)
    ensures r.Some? ==> exists i | 0 <= i < |devs| :: devs[i] == r.value && NoMatchBefore(devs, serial, i)
  {
    if r.Some? {
      var i :| 0 <= i < |devs[1..]| && devs[1..][i] == r.value && NoMatchBefore(devs[1..], serial, i);
      assert devs[i + 1] == r.value;
      assert NoMatchBefore(devs, serial, i + 1);
    }
  }

  /** The `deps.map(...)` that bumps the department of a new device. */
  function BumpCount(deps: seq<Department>, id: string): (r: seq<Department>)
    ensures |r| == |deps|
    ensures forall i :: 0 <= i < |deps| ==>
      r[i] == if deps[i].id == id then deps[i].(devicesCount := deps[i].devicesCount + 1) else deps[i]
  {
    seq(|deps|, i requires 0 <= i < |deps| =>
      if deps[i].id == id then deps[i].(devicesCount := deps[i].devicesCount + 1) else deps[i])
  }

  /** getRoutineChecksByDevice: the checks of one device, in stored order. */
  function ChecksOf(checks: seq<RoutineCheck>, deviceId: string): (r: seq<RoutineCheck>)
    ensures |r| <= |checks|
    ensures forall c :: c in r <==> c in checks && c.deviceId == deviceId
  {
    if checks == [] then []
    else (if checks[0].deviceId == deviceId then [checks[0]] else []) + ChecksOf(checks[1..], deviceId)
  }

  /** Selecting the checks of a device distributes over concatenation, so the
      stored order is kept. */
  lemma {:induction false} ChecksOfAppend(a: seq<RoutineCheck>, b: seq<RoutineCheck>, deviceId: string)
    ensures ChecksOf(a + b, deviceId) == ChecksOf(a, deviceId) + ChecksOf(b, deviceId)
  {
    if a == [] {
      assert a + b == b;
    } else {
      assert (a + b)[0] == a[0];
      assert (a + b)[1..] == a[1..] + b;
      ChecksOfAppend(a[1..], b, deviceId);
    }
  }

  /** The first device with an id (the `find` in addRoutineCheck). */
  predicate DeviceExists(devs: seq<Device>, id: string)
  {
    exists i | 0 <= i < |devs| :: devs[i].id == id
  }

  class LocalStore {
    var departments: seq<Department>
    var devices: seq<Device>
    var checks: seq<RoutineCheck>

    constructor ()
      ensures departments == [] && devices == [] && checks == []
    {
      departments, devices, checks := [], [], [];
    }

    /** addDepartment: a name already present (ignoring surrounding white
        space and case) is refused; otherwise the trimmed name is appended
        with devices_count 0. */
    method AddDepartment(name: string, freshId: string) returns (r: Outcome<Department>)
      modifies this
      ensures r.Rejected? <==> NameExists(old(departments), name)
      ensures r.Rejected? ==> r.error == NameTaken && departments == old(departments)
      ensures r.Added? ==> (r.value == Department(freshId, Trim(name), 0)
                            && departments == old(departments) + [r.value])
      ensures devices == old(devices) && checks == old(checks)
    {
      if NameExists(departments, name) {
        return Rejected(NameTaken);
      }
      var dep := Department(freshId, Trim(name), 0);
      departments := departments + [dep];
      r := Added(dep);
    }

    /** addDevice: the required fields in order (name, supplier,
        manufacturer, serial, department), then serial uniqueness, then
        install date not before supply date when both are given and valid;
        on success the device is appended and its department's count bumped. */
    method AddDevice(input: Device, freshId: string) returns (r: Outcome<Device>)
      modifies this
      ensures r == Rejected(NameRequired) <==> IsBlank(input.name)
      ensures r == Rejected(SupplierRequired) <==> !IsBlank(input.name) && IsBlank(input.supplier)
      ensures r == Rejected(ManufacturerRequired) <==>
                !IsBlank(input.name) && !IsBlank(input.supplier) && IsBlank(input.manufacturer)
      ensures r == Rejected(SerialRequired) <==>
                !IsBlank(input.name) && !IsBlank(input.supplier) && !IsBlank(input.manufacturer)
                && IsBlank(input.serial)
      ensures r == Rejected(DepartmentRequired) <==>
                !IsBlank(input.name) && !IsBlank(input.supplier) && !IsBlank(input.manufacturer)
                && !IsBlank(input.serial) && IsBlank(input.departmentId)
      ensures r == Rejected(DuplicateSerial) <==>
                !IsBlank(input.name) && !IsBlank(input.supplier) && !IsBlank(input.manufacturer)
                && !IsBlank(input.serial) && !IsBlank(input.departmentId)
                && FindBySerial(old(devices), input.serial).Some?
      ensures r == Rejected(InstallBeforeSupply) <==>
                !IsBlank(input.name) && !IsBlank(input.supplier) && !IsBlank(input.manufacturer)
                && !IsBlank(input.serial) && !IsBlank(input.departmentId)
                && FindBySerial(old(devices), input.serial).None?
                && input.installDate.text != [] && input.supplyDate.text != []
                && input.installDate.time.Num? && input.supplyDate.time.Num?
                && input.installDate.time.n < input.supplyDate.time.n
      ensures r.Added? <==>
                !IsBlank(input.name) && !IsBlank(input.supplier) && !IsBlank(input.manufacturer)
                && !IsBlank(input.serial) && !IsBlank(input.departmentId)
                && FindBySerial(old(devices), input.serial).None?
                && !(input.installDate.text != [] && input.supplyDate.text != []
                     && input.installDate.time.Num? && input.supplyDate.time.Num?
                     && input.installDate.time.n < input.supplyDate.time.n)
      ensures r.Added? ==> (r.value == input.(id := freshId)
                            && devices == old(devices) + [r.value]
                            && departments == BumpCount(old(departments), input.departmentId))
      ensures r.Rejected? ==> devices == old(devices) && departments == old(departments)
      ensures checks == old(checks)
    {
      if IsBlank(input.name) { return Rejected(NameRequired); }
      if IsBlank(input.supplier) { return Rejected(SupplierRequired); }
      if IsBlank(input.manufacturer) { return Rejected(ManufacturerRequired); }
      if IsBlank(input.serial) { return Rejected(SerialRequired); }
      if IsBlank(input.departmentId) { return Rejected(DepartmentRequired); }
      if FindBySerial(devices, input.serial).Some? {
        return Rejected(DuplicateSerial);
      }
      if input.installDate.text != [] && input.supplyDate.text != [] {
        var install := input.installDate.time;
        var supply := input.supplyDate.time;
        if install.Num? && supply.Num? && install.n < supply.n {
          return Rejected(InstallBeforeSupply);
        }
      }
      var device := input.(id := freshId);
      devices := devices + [device];
      departments := BumpCount(departments, device.departmentId);
      r := Added(device);
    }

    /** getRoutineChecksByDevice. */
    function ChecksByDevice(deviceId: string): (r: seq<RoutineCheck>)
      reads this
      ensures forall c :: c in r <==> c in checks && c.deviceId == deviceId
    {
      ChecksOf(checks, deviceId)
    }

    /** addRoutineCheck: device id, date, state and checker name must be
        present, and the device must exist; then the check is appended. */
    method AddRoutineCheck(input: RoutineCheck, freshId: string) returns (r: Outcome<RoutineCheck>)
      modifies this
      ensures r == Rejected(DeviceIdRequired) <==> IsBlank(input.deviceId)
      ensures r == Rejected(DateRequired) <==> !IsBlank(input.deviceId) && IsBlank(input.date)
      ensures r == Rejected(StateRequired) <==>
                !IsBlank(input.deviceId) && !IsBlank(input.date) && input.state == []
      ensures r == Rejected(CheckerRequired) <==>
                !IsBlank(input.deviceId) && !IsBlank(input.date) && input.state != [] && IsBlank(input.checkerName)
      ensures r == Rejected(DeviceNotFound) <==>
                !IsBlank(input.deviceId) && !IsBlank(input.date) && input.state != [] && !IsBlank(input.checkerName)
                && !DeviceExists(old(devices), input.deviceId)
      ensures r.Added? ==> r.value == input.(id := freshId) && checks == old(checks) + [r.value]
      ensures r.Rejected? ==> checks == old(checks)
      ensures devices == old(devices) && departments == old(departments)
    {
      if IsBlank(input.deviceId) { return Rejected(DeviceIdRequired); }
      if IsBlank(input.date) { return Rejected(DateRequired); }
      if input.state == [] { return Rejected(StateRequired); }
      if IsBlank(input.checkerName) { return Rejected(CheckerRequired); }
      if !DeviceExists(devices, input.deviceId) {
        return Rejected(DeviceNotFound);
      }
      var check := input.(id := freshId);
      checks := checks + [check];
      r := Added(check);
    }
  }

  /** Adding a department keeps the names unique. */
  lemma AddDepartmentKeepsNamesUnique(deps: seq<Department>, name: string, freshId: string)
    requires NamesUnique(deps) && !NameExists(deps, name)
    ensures NamesUnique(deps + [Department(freshId, Trim(name), 0)])
  {
    var deps' := deps + [Department(freshId, Trim(name), 0)];
    TrimIdempotent(name);
    forall i, j | 0 <= i < j < |deps'| ensures !SameFolded(deps'[i].name, deps'[j].name) {
      if j == |deps| {
        assert deps'[i] == deps[i];
        assert !SameFolded(deps[i].name, name);
      }
    }
  }

  /** Adding a device keeps the serials unique, and the new device is what
      findDeviceBySerial returns for its serial afterwards. */
  lemma {:induction false} AddDeviceKeepsSerialsUnique(devs: seq<Device>, d: Device)
    requires SerialsUnique(devs) && FindBySerial(devs, d.serial).None?
    ensures SerialsUnique(devs + [d])
    ensures FindBySerial(devs + [d], d.serial) == Some(d)
  {
    FindBySerialAppend(devs, d);
  }

  lemma {:induction false} FindBySerialAppend(devs: seq<Device>, d: Device)
    requires FindBySerial(devs, d.serial).None?
    ensures FindBySerial(devs + [d], d.serial) == Some(d)
  {
    if devs != [] {
      assert (devs + [d])[1..] == devs[1..] + [d];
      FindBySerialAppend(devs[1..], d);
    }
  }

  /** Only the department of the new device changes, by one. */
  lemma BumpCountOnlyThatDepartment(deps: seq<Department>, id: string, i: int)
    requires 0 <= i < |deps|
    ensures BumpCount(deps, id)[i].id == deps[i].id && BumpCount(deps, id)[i].name == deps[i].name
    ensures BumpCount(deps, id)[i].devicesCount == deps[i].devicesCount + (if deps[i].id == id then 1 else 0)
  {
  }

  /** After a check is added, the device's list gains it at the end and every
      other device's list is unchanged. */
  lemma AddedCheckListed(checks: seq<RoutineCheck>, c: RoutineCheck, deviceId: string)
    ensures ChecksOf(checks + [c], deviceId) ==
            ChecksOf(checks, deviceId) + (if c.deviceId == deviceId then [c] else [])
  {
    ChecksOfAppend(checks, [c], deviceId);
    assert ChecksOf([c], deviceId) == (if c.deviceId == deviceId then [c] else []) + ChecksOf([], deviceId);
  }
}
