/** The server's tables and the handlers of backend/src/index.ts that change
    them step by step: device create/delete with the departments'
    devices_count bookkeeping, check-criteria create/update with
    case-insensitive key uniqueness, and the replacement of a device type's
    criteria links. The database is a set of in-memory tables (sequences of
    rows in insertion order); the id a fresh row receives (last_row_id) is a
    parameter. The paged device listing is a query over the devices table. */
module BackendTables {
  import opened Common
  import opened DueStatus

  datatype DeviceRow = DeviceRow(
    id: nat,
    name: string,
    serial: string,
    manufacturer: string,
    supplier: string,
    departmentId: Option<nat>,
    deviceTypeId: Option<nat>,
    nextDate: MaintDate)

  datatype DepartmentRow = DepartmentRow(id: nat, name: string, devicesCount: int)

  datatype CriterionRow = CriterionRow(
    id: nat, key: string, labelAr: string, descriptionAr: string, displayOrder: int, isActive: bool)

  datatype TypeCriterionLink = TypeCriterionLink(deviceTypeId: nat, criteriaId: nat)

  /** HTTP status codes the handlers answer with. */
  datatype Reply = Ok | BadRequest | Conflict

  /** A JSON id that JavaScript's `if (department_id)` accepts: present and not 0. */
  predicate Truthy(id: Option<nat>)
  {
    id.Some? && id.value != 0
  }

  /** `UPDATE departments SET devices_count = devices_count + delta WHERE id = ?`. */
  function AdjustCount(deps: seq<DepartmentRow>, id: nat, delta: int): (r: seq<DepartmentRow>)
    ensures |r| == |deps|
  {
    if deps == [] then []
    else
      var d := deps[0];
      [if d.id == id then d.(devicesCount := d.devicesCount + delta) else d] + AdjustCount(deps[1..], id, delta)
  }

  /** Only the rows whose id matches change, and only in devices_count, by exactly delta. */
  lemma {:induction false} AdjustCountEffect(deps: seq<DepartmentRow>, id: nat, delta: int, i: int)
    requires 0 <= i < |deps|
    ensures deps[i].id == id ==> AdjustCount(deps, id, delta)[i] == deps[i].(devicesCount := deps[i].devicesCount + delta)
    ensures deps[i].id != id ==> AdjustCount(deps, id, delta)[i] == deps[i]
  {
    if i > 0 {
      AdjustCountEffect(deps[1..], id, delta, i - 1);
    }
  }

  /** Adding and then removing a device of the same department restores every count. */
  lemma {:induction false} AdjustCountCancels(deps: seq<DepartmentRow>, id: nat, delta: int)
    ensures AdjustCount(AdjustCount(deps, id, delta), id, -delta) == deps
  {
    if deps != [] {
      AdjustCountCancels(deps[1..], id, delta);
    }
  }

  /** `key = ? COLLATE NOCASE`: SQLite's NOCASE folds the ASCII letters only. */
  predicate SameKeyNoCase(a: string, b: string)
  {
    Lower(a) == Lower(b)
  }

  /** Some row other than `except` already uses the key, ignoring ASCII case.
      Soft-deleted (inactive) rows count too: the query does not filter them. */
  predicate KeyTaken(rows: seq<CriterionRow>, key: string, except: Option<nat>)
  {
    exists i | 0 <= i < |rows| :: SameKeyNoCase(rows[i].key, key) && (except.None? || rows[i].id != except.value)
  }

  /** `DELETE FROM device_type_criteria WHERE device_type_id = ?`: the links
      of every other type, in order. */
  function WithoutType(links: seq<TypeCriterionLink>, typeId: nat): (r: seq<TypeCriterionLink>)
    ensures forall l :: l in r <==> l in links && l.deviceTypeId != typeId
  {
    if links == [] then []
    else if links[0].deviceTypeId != typeId then [links[0]] + WithoutType(links[1..], typeId)
    else WithoutType(links[1..], typeId)
  }

  /** `DELETE FROM devices WHERE id = ?`: the other rows, in order. */
  function WithoutDevice(rows: seq<DeviceRow>, id: nat): (r: seq<DeviceRow>)
    ensures forall d :: d in r <==> d in rows && d.id != id
  {
    if rows == [] then []
    else if rows[0].id != id then [rows[0]] + WithoutDevice(rows[1..], id)
    else WithoutDevice(rows[1..], id)
  }

  /** The links `for (const criteriaId of criteria_ids)` inserts, in order. */
  function LinksFor(typeId: nat, ids: seq<nat>): (r: seq<TypeCriterionLink>)
    ensures |r| == |ids|
    ensures forall i :: 0 <= i < |ids| ==> r[i] == TypeCriterionLink(typeId, ids[i])
  {
    seq(|ids|, i requires 0 <= i < |ids| => TypeCriterionLink(typeId, ids[i]))
  }

  /** `UPDATE check_criteria SET ... WHERE id = ?` on every row with that id. */
  function UpdateCriterionRows(rows: seq<CriterionRow>, id: nat, key: string, labelAr: string,
                               descriptionAr: string, displayOrder: int, isActive: bool): (r: seq<CriterionRow>)
    ensures |r| == |rows|
    ensures forall i :: 0 <= i < |rows| ==>
      r[i] == if rows[i].id == id then CriterionRow(id, key, labelAr, descriptionAr, displayOrder, isActive) else rows[i]
  {
    seq(|rows|, i requires 0 <= i < |rows| =>
      if rows[i].id == id then CriterionRow(id, key, labelAr, descriptionAr, displayOrder, isActive) else rows[i])
  }

  /** `SELECT ... WHERE id = ?` followed by `.first()`. */
  function FirstWithId(rows: seq<DeviceRow>, id: nat): (r: Option<DeviceRow>)
    ensures r.Some? ==> r.value in rows && r.value.id == id
    ensures r.None? <==> forall i | 0 <= i < |rows| :: rows[i].id != id
  {
    if rows == [] then None
    else if rows[0].id == id then Some(rows[0])
    else FirstWithId(rows[1..], id)
  }

  class Database {
    var devices: seq<DeviceRow>
    var departments: seq<DepartmentRow>
    var criteria: seq<CriterionRow>
    var typeCriteria: seq<TypeCriterionLink>

    constructor ()
      ensures devices == [] && departments == [] && criteria == [] && typeCriteria == []
    {
      devices, departments, criteria, typeCriteria := [], [], [], [];
    }

    /** POST /api/devices: insert the row, then, when department_id is truthy,
        add one to that department's devices_count. */
    method CreateDevice(row: DeviceRow)
      modifies this
      ensures devices == old(devices) + [row]
      ensures departments == if Truthy(row.departmentId) then AdjustCount(old(departments), row.departmentId.value, 1)
                             else old(departments)
      ensures criteria == old(criteria) && typeCriteria == old(typeCriteria)
    {
      devices := devices + [row];
      if Truthy(row.departmentId) {
        departments := AdjustCount(departments, row.departmentId.value, 1);
      }
    }

    /** DELETE /api/devices/:id: read the department of the first row with the
        id, delete every row with the id, and subtract one from that
        department when it was truthy. */
    method DeleteDevice(id: nat)
      modifies this
      ensures devices == WithoutDevice(old(devices), id)
      ensures var first := FirstWithId(old(devices), id);
              departments == if first.Some? && Truthy(first.value.departmentId)
                             then AdjustCount(old(departments), first.value.departmentId.value, -1)
                             else old(departments)
      ensures criteria == old(criteria) && typeCriteria == old(typeCriteria)
    {
      var found := FirstWithId(devices, id);
      devices := WithoutDevice(devices, id);
      if found.Some? && Truthy(found.value.departmentId) {
        departments := AdjustCount(departments, found.value.departmentId.value, -1);
      }
    }

    /** POST /api/criteria: 400 when key or label_ar is missing or empty,
        409 when a row already has the key ignoring ASCII case, otherwise
        the row is appended with the fresh id. */
    method CreateCriterion(key: string, labelAr: string, descriptionAr: string, displayOrder: int, freshId: nat)
      returns (reply: Reply)
      modifies this
      ensures reply == BadRequest <==> key == [] || labelAr == []
      ensures reply == Conflict <==> key != [] && labelAr != [] && KeyTaken(old(criteria), key, None)
      ensures reply == Ok ==> criteria == old(criteria) + [CriterionRow(freshId, key, labelAr, descriptionAr, displayOrder, true)]
      ensures reply != Ok ==> criteria == old(criteria)
      ensures devices == old(devices) && departments == old(departments) && typeCriteria == old(typeCriteria)
    {
      if key == [] || labelAr == [] {
        return BadRequest;
      }
      if KeyTaken(criteria, key, None) {
        return Conflict;
      }
      criteria := criteria + [CriterionRow(freshId, key, labelAr, descriptionAr, displayOrder, true)];
      reply := Ok;
    }

    /** PUT /api/criteria/:id: 409 when another row (a different id) has the
        key ignoring ASCII case; otherwise every row with the id is rewritten. */
    method UpdateCriterion(id: nat, key: string, labelAr: string, descriptionAr: string, displayOrder: int, isActive: bool)
      returns (reply: Reply)
      modifies this
      ensures reply != BadRequest
      ensures reply == Conflict <==> KeyTaken(old(criteria), key, Some(id))
      ensures reply == Ok ==> criteria == UpdateCriterionRows(old(criteria), id, key, labelAr, descriptionAr, displayOrder, isActive)
      ensures reply == Conflict ==> criteria == old(criteria)
      ensures devices == old(devices) && departments == old(departments) && typeCriteria == old(typeCriteria)
    {
      if KeyTaken(criteria, key, Some(id)) {
        return Conflict;
      }
      criteria := UpdateCriterionRows(criteria, id, key, labelAr, descriptionAr, displayOrder, isActive);
      reply := Ok;
    }

    /** POST /api/device-types/:id/criteria: delete the type's links, then
        insert one link per listed criteria id, in order. */
    method SetTypeCriteria(typeId: nat, criteriaIds: seq<nat>)
      modifies this
      ensures typeCriteria == WithoutType(old(typeCriteria), typeId) + LinksFor(typeId, criteriaIds)
      ensures devices == old(devices) && departments == old(departments) && criteria == old(criteria)
    {
      typeCriteria := WithoutType(typeCriteria, typeId);
      ghost var kept := typeCriteria;
      var i := 0;
      while i < |criteriaIds|
        invariant 0 <= i <= |criteriaIds|
        invariant typeCriteria == kept + LinksFor(typeId, criteriaIds[..i])
        invariant devices == old(devices) && departments == old(departments) && criteria == old(criteria)
      {
        typeCriteria := typeCriteria + [TypeCriterionLink(typeId, criteriaIds[i])];
        assert LinksFor(typeId, criteriaIds[..i + 1]) == LinksFor(typeId, criteriaIds[..i]) + [TypeCriterionLink(typeId, criteriaIds[i])];
        i := i + 1;
      }
      assert criteriaIds[..i] == criteriaIds;
    }
  }

  /** After SetTypeCriteria the type's links are exactly the submitted ids,
      in order, and the links of every other type are untouched. */
  lemma {:induction false} TypeLinksReplaced(links: seq<TypeCriterionLink>, typeId: nat, ids: seq<nat>, other: nat)
    requires other != typeId
    ensures LinksOf(WithoutType(links, typeId) + LinksFor(typeId, ids), typeId) == ids
    ensures LinksOf(WithoutType(links, typeId) + LinksFor(typeId, ids), other) == LinksOf(links, other)
  {
    LinksOfAppend(WithoutType(links, typeId), LinksFor(typeId, ids), typeId);
    LinksOfAppend(WithoutType(links, typeId), LinksFor(typeId, ids), other);
    LinksOfWithout(links, typeId, typeId);
    LinksOfWithout(links, typeId, other);
    LinksOfFor(typeId, ids, typeId);
    LinksOfFor(typeId, ids, other);
  }

  /** The criteria ids linked to a type, in link order. */
  function LinksOf(links: seq<TypeCriterionLink>, typeId: nat): seq<nat>
  {
    if links == [] then []
    else (if links[0].deviceTypeId == typeId then [links[0].criteriaId] else []) + LinksOf(links[1..], typeId)
  }

  lemma {:induction false} LinksOfAppend(a: seq<TypeCriterionLink>, b: seq<TypeCriterionLink>, t: nat)
    ensures LinksOf(a + b, t) == LinksOf(a, t) + LinksOf(b, t)
  {
    if a != [] {
      assert (a + b)[0] == a[0];
      assert (a + b)[1..] == a[1..] + b;
      LinksOfAppend(a[1..], b, t);
    } else {
      assert a + b == b;
    }
  }

  lemma {:induction false} LinksOfWithout(links: seq<TypeCriterionLink>, removed: nat, t: nat)
    ensures LinksOf(WithoutType(links, removed), t) == if t == removed then [] else LinksOf(links, t)
  {
    if links != [] {
      LinksOfWithout(links[1..], removed, t);
    }
  }

  lemma {:induction false} LinksOfFor(typeId: nat, ids: seq<nat>, t: nat)
    ensures LinksOf(LinksFor(typeId, ids), t) == if t == typeId then ids else []
  {
    if ids != [] {
      LinksOfFor(typeId, ids[1..], t);
      assert LinksFor(typeId, ids)[1..] == LinksFor(typeId, ids[1..]);
    }
  }

  /** The pagination block of GET /api/devices. */
  datatype DevicePaging = Unpaged | Paged(page: int, limit: int, offset: int, total: nat, totalPages: int)

  /** `Math.ceil(total / limit)` for a positive limit. */
  function CeilDiv(total: nat, limit: int): (r: nat)
    requires limit >= 1
    ensures r * limit >= total
    ensures total > 0 ==> (r - 1) * limit < total
    ensures total == 0 ==> r == 0
  {
    (total + limit - 1) / limit
  }

  /** page and limit are the parsed query parameters (0 when absent): with
      neither, the whole table is returned; otherwise page >= 1, limit in
      [1, 100] and offset = (page - 1) * limit. */
  function DevicePagingFor(page: int, limit: int, total: nat): (r: DevicePaging)
    ensures r.Unpaged? <==> page == 0 && limit == 0
    ensures r.Paged? ==> r.page == Max(1, page) && r.page >= 1
    ensures r.Paged? ==> 1 <= r.limit <= 100 && (1 <= limit <= 100 ==> r.limit == limit)
    ensures r.Paged? ==> r.offset == (r.page - 1) * r.limit && r.offset >= 0
    ensures r.Paged? ==> r.limit == Clamp(limit, 1, 100)
    ensures r.Paged? ==> r.total == total && r.totalPages == CeilDiv(total, r.limit)
    ensures r.Paged? ==> r.totalPages * r.limit >= total && (total > 0 ==> (r.totalPages - 1) * r.limit < total)
  {
    if page == 0 && limit == 0 then Unpaged
    else
      var p := Max(1, page);
      var l := Min(Max(1, limit), 100);
      Paged(p, l, (p - 1) * l, total, CeilDiv(total, l))
  }

  /** The WHERE clause of GET /api/devices: a trimmed, non-empty q must occur
      in the name, serial, manufacturer or supplier (LIKE, ASCII case
      ignored), and a non-empty department_id must equal the row's. */
  predicate DeviceMatches(d: DeviceRow, q: string, departmentId: Option<nat>)
  {
    var t := Lower(Trim(q));
    (t == [] || Contains(Lower(d.name), t) || Contains(Lower(d.serial), t)
             || Contains(Lower(d.manufacturer), t) || Contains(Lower(d.supplier), t))
    && (departmentId.None? || d.departmentId == departmentId)
  }

  /** The rows the WHERE clause keeps, in order. */
  function MatchingDevices(rows: seq<DeviceRow>, q: string, departmentId: Option<nat>): (r: seq<DeviceRow>)
    ensures |r| <= |rows|
    ensures forall d :: d in r <==> d in rows && DeviceMatches(d, q, departmentId)
  {
    if rows == [] then []
    else if DeviceMatches(rows[0], q, departmentId) then [rows[0]] + MatchingDevices(rows[1..], q, departmentId)
    else MatchingDevices(rows[1..], q, departmentId)
  }

  /** GET /api/devices (rows given in the ORDER BY order). Without page and
      limit the whole table is returned and q and department_id are not
      looked at; otherwise the total counts every match and the page holds
      at most `limit` of them starting at `offset`. */
  function ListDevices(rows: seq<DeviceRow>, q: string, departmentId: Option<nat>, page: int, limit: int)
    : (r: (seq<DeviceRow>, DevicePaging))
    ensures page == 0 && limit == 0 ==> r == (rows, Unpaged)
    ensures var all := MatchingDevices(rows, q, departmentId);
            !(page == 0 && limit == 0) ==>
              && r.1 == DevicePagingFor(page, limit, |all|) && r.1.total == |all|
              && |r.0| <= r.1.limit
              && (r.1.offset <= |all| ==> r.0 == all[r.1.offset..Min(r.1.offset + r.1.limit, |all|)])
              && (r.1.offset >= |all| ==> r.0 == [])
    ensures !(page == 0 && limit == 0) ==> forall d | d in r.0 :: d in rows && DeviceMatches(d, q, departmentId)
  {
    var all := MatchingDevices(rows, q, departmentId);
    var paging := DevicePagingFor(page, limit, |all|);
    if paging.Unpaged? then (rows, paging)
    else
      var start := Min(paging.offset, |all|);
      (all[start..Min(paging.offset + paging.limit, |all|)], paging)
  }
}
