/** The administration page (src/pages/AdminControl.tsx): the privilege
    check-boxes of the user forms, the criteria check-boxes of a device
    type, the role and status labels, and the required-field checks that
    stop a submit before any request is made. */
module AdminControl {
  import opened Common

  /** `s.filter(v => v !== x)`: every occurrence of x removed. */
  function Without<T(==,!new)>(s: seq<T>, x: T): (r: seq<T>)
    ensures x !in r
    ensures forall y :: y != x ==> (y in r <==> y in s)
    ensures x !in s ==> r == s
    ensures IsSubsequence(r, s)
  {
    if s == [] then []
    else if s[0] == x then Without(s[1..], x)
    else [s[0]] + Without(s[1..], x)
  }

  lemma {:induction false} WithoutAppend<T(!new)>(a: seq<T>, b: seq<T>, x: T)
    ensures Without(a + b, x) == Without(a, x) + Without(b, x)
  {
    if a == [] {
      assert a + b == b;
    } else {
      assert (a + b)[0] == a[0];
      assert (a + b)[1..] == a[1..] + b;
      WithoutAppend(a[1..], b, x);
    }
  }

  /** togglePrivilege: a held privilege is removed (every copy of it), a
      missing one is appended at the end. */
  function TogglePrivilege(privileges: seq<string>, id: string): (r: seq<string>)
    ensures id in privileges ==> r == Without(privileges, id)
    ensures id !in privileges ==> r == privileges + [id]
    ensures id in r <==> id !in privileges
    ensures forall p :: p != id ==> (p in r <==> p in privileges)
  {
    if id in privileges then Without(privileges, id) else privileges + [id]
  }

  /** Apart from the toggled id, the list is exactly what it was: the other
      privileges keep their order and their copies. */
  lemma ToggleKeepsOthers(privileges: seq<string>, id: string)
    ensures Without(TogglePrivilege(privileges, id), id) == Without(privileges, id)
  {
    if id !in privileges {
      WithoutAppend(privileges, [id], id);
      assert Without([id], id) == [];
    }
  }

  /** Toggling twice restores membership, and restores the list itself when
      the id was not held. */
  lemma ToggleTwice(privileges: seq<string>, id: string)
    ensures forall p :: p in TogglePrivilege(TogglePrivilege(privileges, id), id) <==> p in privileges
    ensures id !in privileges ==> TogglePrivilege(TogglePrivilege(privileges, id), id) == privileges
  {
    if id !in privileges {
      WithoutAppend(privileges, [id], id);
      assert Without([id], id) == [];
    }
  }

  /** The criteria check-box of a device type: checking appends the id,
      unchecking removes every copy of it. */
  function SetCriterionChecked(ids: seq<nat>, id: nat, checked: bool): (r: seq<nat>)
    ensures id in r <==> checked
    ensures forall c :: c != id ==> (c in r <==> c in ids)
    ensures checked ==> r == ids + [id]
    ensures !checked ==> IsSubsequence(r, ids)
  {
    if checked then ids + [id] else Without(ids, id)
  }

  /** getRoleText. */
  function RoleText(role: string): (r: string)
    ensures r == "مدير" <==> role == "admin"
    ensures role != "admin" ==> r == "مستخدم"
  {
    if role == "admin" then "مدير" else "مستخدم"
  }

  /** getStatusText. */
  function StatusText(status: string): (r: string)
    ensures r == "نشط" <==> status == "active"
    ensures status != "active" ==> r == "معطل"
  {
    if status == "active" then "نشط" else "معطل"
  }

  predicate AllSpace(s: string)
  {
    forall i :: 0 <= i < |s| ==> IsSpace(s[i])
  }

  /** handleAddUser's guard: username, password and name must each have
      something besides white space. */
  predicate CanAddUser(username: string, password: string, name: string)
  {
    !IsBlank(username) && !IsBlank(password) && !IsBlank(name)
  }

  /** handleAddDeviceType's guard on the Arabic name. */
  predicate CanAddDeviceType(nameAr: string)
  {
    !IsBlank(nameAr)
  }

  /** A criterion being edited, as its key and Arabic label. */
  datatype CriterionDraft = CriterionDraft(key: string, labelAr: string)

  /** handleUpdateCriteria's guard: something is being edited, and its key
      and label are not blank. */
  predicate CanUpdateCriterion(editing: Option<CriterionDraft>)
  {
    editing.Some? && !IsBlank(editing.value.key) && !IsBlank(editing.value.labelAr)
  }

  /** A user is refused exactly when one of the three fields is empty or
      white space only. */
  lemma AddUserRefusedIffBlankField(username: string, password: string, name: string)
    ensures !CanAddUser(username, password, name) <==> AllSpace(username) || AllSpace(password) || AllSpace(name)
  {
    BlankIffAllSpace(username);
    BlankIffAllSpace(password);
    BlankIffAllSpace(name);
  }

  /** The same for the device type's Arabic name. */
  lemma AddDeviceTypeRefusedIffBlank(nameAr: string)
    ensures !CanAddDeviceType(nameAr) <==> AllSpace(nameAr)
  {
    BlankIffAllSpace(nameAr);
  }

  /** And for a criterion update: nothing being edited, or a blank key or
      label. */
  lemma UpdateCriterionRefusedIffBlank(editing: Option<CriterionDraft>)
    ensures !CanUpdateCriterion(editing) <==>
              editing.None? || AllSpace(editing.value.key) || AllSpace(editing.value.labelAr)
  {
    if editing.Some? {
      BlankIffAllSpace(editing.value.key);
      BlankIffAllSpace(editing.value.labelAr);
    }
  }
}
