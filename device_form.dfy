/** The device create/edit form (src/pages/DeviceNew.tsx): the field
    updates (the cost field keeps digits only, the warranty check-box), the
    contract-photo list, the payload doSave sends, and the reset after a
    successful create. The request itself is a parameter: whether it
    succeeded. */
module DeviceForm {
  import opened Common

  /** The form state. Fields the page starts as `undefined` are Options. */
  datatype Form = Form(
    name: string, supplier: string, manufacturer: string, serial: string,
    departmentId: string, supplyDate: string, installDate: string,
    serviceEngineer: string, repairDate: string,
    signaturePng: Option<string>, photoUrl: Option<string>,
    manufacturerUrl: Option<string>, description: Option<string>,
    model: string, deviceTypeId: string, engineerPhone: string,
    nextMaintenanceDate: string, lastMaintenanceDate: string,
    contractPhotos: seq<string>, cost: string,
    isUnderWarranty: bool, warrantyExpiryDate: string)

  /** The text inputs handleChange writes by name. */
  datatype TextField =
    | Name | Supplier | Manufacturer | Serial | Department | SupplyDate | InstallDate
    | ServiceEngineer | RepairDate | Model | DeviceType | EngineerPhone
    | NextMaintenance | LastMaintenance | Cost | WarrantyExpiry

  /** The empty form the page starts with. */
  function EmptyForm(): Form
  {
    Form("", "", "", "", "", "", "", "", "", None, None, None, None,
         "", "", "", "", "", [], "", false, "")
  }

  /** `value.replace(/[^0-9]/g, '')`. */
  function DigitsOnly(s: string): (r: string)
    ensures |r| <= |s|
    ensures forall i :: 0 <= i < |r| ==> IsDigit(r[i])
    ensures (forall i :: 0 <= i < |s| ==> IsDigit(s[i])) ==> r == s
    ensures multiset(r) <= multiset(s)
  {
    if s == [] then []
    else
      assert s == [s[0]] + s[1..];
      (if IsDigit(s[0]) then [s[0]] else []) + DigitsOnly(s[1..])
  }

  /** Removing non-digits keeps the digits in their order: it distributes
      over concatenation. */
  lemma {:induction false} DigitsOnlyAppend(a: string, b: string)
    ensures DigitsOnly(a + b) == DigitsOnly(a) + DigitsOnly(b)
  {
    if a == [] {
      assert a + b == b;
    } else {
      var head := if IsDigit(a[0]) then [a[0]] else [];
      assert (a + b)[0] == a[0];
      assert (a + b)[1..] == a[1..] + b;
      assert DigitsOnly(a + b) == head + DigitsOnly(a[1..] + b);
      DigitsOnlyAppend(a[1..], b);
      assert DigitsOnly(a) == head + DigitsOnly(a[1..]);
    }
  }

  /** The text a named input shows. */
  function FieldText(f: Form, field: TextField): string
  {
    match field
    case Name => f.name
    case Supplier => f.supplier
    case Manufacturer => f.manufacturer
    case Serial => f.serial
    case Department => f.departmentId
    case SupplyDate => f.supplyDate
    case InstallDate => f.installDate
    case ServiceEngineer => f.serviceEngineer
    case RepairDate => f.repairDate
    case Model => f.model
    case DeviceType => f.deviceTypeId
    case EngineerPhone => f.engineerPhone
    case NextMaintenance => f.nextMaintenanceDate
    case LastMaintenance => f.lastMaintenanceDate
    case Cost => f.cost
    case WarrantyExpiry => f.warrantyExpiryDate
  }

  /** handleChange on a text input (cost filtered to digits): the optional
      fields, the photos and the warranty flag are untouched; which text
      inputs change is stated by SetTextWritesOneField. */
  function SetText(f: Form, field: TextField, value: string): (r: Form)
    ensures r.signaturePng == f.signaturePng && r.photoUrl == f.photoUrl
    ensures r.manufacturerUrl == f.manufacturerUrl && r.description == f.description
    ensures r.contractPhotos == f.contractPhotos && r.isUnderWarranty == f.isUnderWarranty
    ensures field == Cost ==> r == f.(cost := DigitsOnly(value))
    ensures field == Name ==> r == f.(name := value)
    ensures field == Department ==> r == f.(departmentId := value)
  {
    f.(name := if field == Name then value else f.name,
       supplier := if field == Supplier then value else f.supplier,
       manufacturer := if field == Manufacturer then value else f.manufacturer,
       serial := if field == Serial then value else f.serial,
       departmentId := if field == Department then value else f.departmentId,
       supplyDate := if field == SupplyDate then value else f.supplyDate,
       installDate := if field == InstallDate then value else f.installDate,
       serviceEngineer := if field == ServiceEngineer then value else f.serviceEngineer,
       repairDate := if field == RepairDate then value else f.repairDate,
       model := if field == Model then value else f.model,
       deviceTypeId := if field == DeviceType then value else f.deviceTypeId,
       engineerPhone := if field == EngineerPhone then value else f.engineerPhone,
       nextMaintenanceDate := if field == NextMaintenance then value else f.nextMaintenanceDate,
       lastMaintenanceDate := if field == LastMaintenance then value else f.lastMaintenanceDate,
       cost := if field == Cost then DigitsOnly(value) else f.cost,
       warrantyExpiryDate := if field == WarrantyExpiry then value else f.warrantyExpiryDate)
  }

  /** handleChange writes exactly the named input: it takes the value (the
      cost its digits), and every other input keeps its text. */
  lemma SetTextWritesOneField(f: Form, field: TextField, value: string)
    ensures FieldText(SetText(f, field, value), field) == if field == Cost then DigitsOnly(value) else value
    ensures forall g :: g != field ==> FieldText(SetText(f, field, value), g) == FieldText(f, g)
  {
    var r := SetText(f, field, value);
    forall g | g != field
      ensures FieldText(r, g) == FieldText(f, g)
    {
    }
  }

  /** `filter((_, i) => i !== index)`. */
  function RemoveAt(s: seq<string>, index: int): (r: seq<string>)
    ensures 0 <= index < |s| ==> r == s[..index] + s[index + 1..]
    ensures !(0 <= index < |s|) ==> r == s
  {
    if 0 <= index < |s| then s[..index] + s[index + 1..] else s
  }

  /** `x || null` for a field that may be undefined. */
  function OrNull(x: Option<string>): (r: Option<string>)
    ensures r.Some? <==> x.Some? && x.value != []
    ensures r.Some? ==> r == x
  {
    if x.Some? && x.value != [] then x else None
  }

  /** `s || null` for a text field. */
  function TextOrNull(s: string): (r: Option<string>)
    ensures r.None? <==> s == []
    ensures r.Some? ==> r.value == s
  {
    if s == [] then None else Some(s)
  }

  /** `s ? Number(s) : null`; a value Number cannot read becomes NaN, which
      JSON sends as null. */
  function NumberOrNull(s: string): (r: Option<nat>)
    ensures s == [] ==> r.None?
    ensures r.Some? <==> ParseNumber(s).Some?
  {
    if s == [] then None else ParseNumber(s)
  }

  datatype Payload = Payload(
    name: string, supplier: string, manufacturer: string, serial: string,
    supplyDate: string, installDate: string, serviceEngineer: string, repairDate: string, model: string,
    departmentId: Option<nat>, deviceTypeId: Option<nat>,
    signaturePng: Option<string>, photoUrl: Option<string>, contractPhotos: Option<seq<string>>,
    manufacturerUrl: Option<string>, description: Option<string>, engineerPhone: Option<string>,
    nextMaintenanceDate: Option<string>, lastMaintenanceDate: Option<string>,
    cost: Option<nat>, isUnderWarranty: int, warrantyExpiryDate: Option<string>)

  /** The payload doSave builds from the form. */
  function BuildPayload(f: Form): (p: Payload)
    ensures p.isUnderWarranty == (if f.isUnderWarranty then 1 else 0)
    ensures !f.isUnderWarranty ==> p.warrantyExpiryDate.None?
    ensures f.isUnderWarranty ==> p.warrantyExpiryDate == TextOrNull(f.warrantyExpiryDate)
    ensures p.contractPhotos.Some? <==> |f.contractPhotos| > 0
    ensures p.contractPhotos.Some? ==> p.contractPhotos.value == f.contractPhotos
    ensures p.departmentId == NumberOrNull(f.departmentId) && p.deviceTypeId == NumberOrNull(f.deviceTypeId)
    ensures p.cost == NumberOrNull(f.cost)
    ensures p.name == f.name && p.serial == f.serial
    ensures p.supplier == f.supplier && p.manufacturer == f.manufacturer && p.model == f.model
    ensures p.supplyDate == f.supplyDate && p.installDate == f.installDate && p.repairDate == f.repairDate
    ensures p.serviceEngineer == f.serviceEngineer
    ensures p.signaturePng == OrNull(f.signaturePng) && p.photoUrl == OrNull(f.photoUrl)
    ensures p.manufacturerUrl == OrNull(f.manufacturerUrl) && p.description == OrNull(f.description)
    ensures p.engineerPhone == TextOrNull(f.engineerPhone)
    ensures p.nextMaintenanceDate == TextOrNull(f.nextMaintenanceDate)
    ensures p.lastMaintenanceDate == TextOrNull(f.lastMaintenanceDate)
  {
    Payload(
      f.name, f.supplier, f.manufacturer, f.serial,
      f.supplyDate, f.installDate, f.serviceEngineer, f.repairDate, f.model,
      NumberOrNull(f.departmentId), NumberOrNull(f.deviceTypeId),
      OrNull(f.signaturePng), OrNull(f.photoUrl),
      if |f.contractPhotos| > 0 then Some(f.contractPhotos) else None,
      OrNull(f.manufacturerUrl), OrNull(f.description), TextOrNull(f.engineerPhone),
      TextOrNull(f.nextMaintenanceDate), TextOrNull(f.lastMaintenanceDate),
      NumberOrNull(f.cost),
      if f.isUnderWarranty then 1 else 0,
      if f.isUnderWarranty then TextOrNull(f.warrantyExpiryDate) else None)
  }

  /** A cost typed through the form always reaches the server as its
      decimal value. */
  lemma TypedCostIsSent(f: Form, typed: string)
    requires DigitsOnly(typed) != []
    ensures BuildPayload(SetText(f, Cost, typed)).cost == Some(DigitsValue(DigitsOnly(typed)))
  {
  }

  /** The reset after a successful create: every field back to its start
      value except the department. */
  function ResetAfterCreate(f: Form): (r: Form)
    ensures r == EmptyForm().(departmentId := f.departmentId)
  {
    Form("", "", "", "", f.departmentId, "", "", "", "", None, None, None, None,
         "", "", "", "", "", [], "", false, "")
  }

  datatype SaveOutcome = MissingCost | Submitted(payload: Payload, asUpdate: bool)

  class DeviceEditor {
    const isEdit: bool
    var form: Form

    constructor (isEdit: bool)
      ensures this.isEdit == isEdit && form == EmptyForm()
    {
      this.isEdit := isEdit;
      form := EmptyForm();
    }

    method Change(field: TextField, value: string)
      modifies this
      ensures form == SetText(old(form), field, value)
    {
      form := SetText(form, field, value);
    }

    /** The warranty check-box. */
    method SetWarranty(checked: bool)
      modifies this
      ensures form == old(form).(isUnderWarranty := checked)
    {
      form := form.(isUnderWarranty := checked);
    }

    /** An uploaded contract photo is appended at the end. */
    method AddContractPhoto(url: string)
      modifies this
      ensures form == old(form).(contractPhotos := old(form).contractPhotos + [url])
    {
      form := form.(contractPhotos := form.contractPhotos + [url]);
    }

    /** removeContractPhoto: drops exactly the photo at the index. */
    method RemoveContractPhoto(index: int)
      modifies this
      ensures form == old(form).(contractPhotos := RemoveAt(old(form).contractPhotos, index))
    {
      form := form.(contractPhotos := RemoveAt(form.contractPhotos, index));
    }

    /** doSave: refuses without a cost; otherwise sends the payload (an update
        when editing) and, after a successful create, resets the form. */
    method DoSave(succeeded: bool) returns (outcome: SaveOutcome)
      modifies this
      ensures old(form).cost == [] ==> outcome == MissingCost && form == old(form)
      ensures old(form).cost != [] ==> outcome == Submitted(BuildPayload(old(form)), isEdit)
      ensures old(form).cost != [] && succeeded && !isEdit ==> form == ResetAfterCreate(old(form))
      ensures !(old(form).cost != [] && succeeded && !isEdit) ==> form == old(form)
    {
      if form.cost == [] {
        return MissingCost;
      }
      outcome := Submitted(BuildPayload(form), isEdit);
      if succeeded && !isEdit {
        form := ResetAfterCreate(form);
      }
    }
  }

  /** A form just reset after a create cannot be saved again until a cost
      is typed. */
  lemma ResetFormNeedsCost(f: Form)
    ensures ResetAfterCreate(f).cost == []
    ensures ResetAfterCreate(f).departmentId == f.departmentId
  {
  }

  /** Adding a photo and then removing it by its index restores the list. */
  lemma AddThenRemovePhoto(photos: seq<string>, url: string)
    ensures RemoveAt(photos + [url], |photos|) == photos
  {
    assert (photos + [url])[..|photos|] == photos;
  }
}
