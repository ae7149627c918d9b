/** The roles and permissions tab of `src/settings/RolesPermissionsSettings.tsx`:
    the selected role, the set of its permission ids and the checkbox toggle. A
    JavaScript `Set` of numbers is a list of distinct ids in insertion order, the
    order `Array.from` hands to the request. */
module RolesPermissions {
  import opened Wrappers
  import opened Seqs
  import opened Text

  datatype Permission = Permission(id: int, name: string)
  datatype Role = Role(id: int, name: string, permissions: Option<seq<Permission>>)

  function HasIdText(selectedId: string): Role -> bool {
    (r: Role) => IntToString(r.id) == selectedId
  }

  /** `selectedRole`: the first role whose id, as text, is the selected value. */
  function SelectedRole(roles: seq<Role>, selectedId: string): (r: Option<Role>)
    ensures r.None? <==> forall i :: 0 <= i < |roles| ==> IntToString(roles[i].id) != selectedId
    ensures r.Some? ==> exists i :: 0 <= i < |roles| && roles[i] == r.value && IntToString(r.value.id) == selectedId
                          && forall j :: 0 <= j < i ==> IntToString(roles[j].id) != selectedId
  {
    match FindIndex(roles, HasIdText(selectedId))
    case None => None
    case Some(i) => Some(roles[i])
  }

  /** Choosing a role's option selects the first role with that id; the empty
      option selects none. */
  lemma SelectingOptionFindsRole(roles: seq<Role>, k: nat)
    requires k < |roles|
    ensures SelectedRole(roles, IntToString(roles[k].id)).Some?
    ensures SelectedRole(roles, IntToString(roles[k].id)).value.id == roles[k].id
    ensures SelectedRole(roles, "").None?
  {
    var r := SelectedRole(roles, IntToString(roles[k].id));
    assert HasIdText(IntToString(roles[k].id))(roles[k]);
    IntToStringInjective(r.value.id, roles[k].id);
    forall i | 0 <= i < |roles| ensures IntToString(roles[i].id) != "" {
      assert |IntToString(roles[i].id)| >= 1;
    }
  }

  /** `selectedRole?.permissions ?? []`. */
  function PermsOf(role: Option<Role>): seq<Permission> {
    if role.Some? && role.value.permissions.Some? then role.value.permissions.value else []
  }

  /** The permission ids of a role, in its order; none without a role or list. */
  function PermIds(role: Option<Role>): (r: seq<int>)
    ensures |r| == |PermsOf(role)|
    ensures forall i :: 0 <= i < |r| ==> r[i] == PermsOf(role)[i].id
  {
    var ps := PermsOf(role);
    seq(|ps|, i requires 0 <= i < |ps| => ps[i].id)
  }

  /** `selectedPermIds`: each permission id of the selected role added to a set. */
  method SelectedPermIds(role: Option<Role>) returns (ids: seq<int>)
    ensures ids == Dedup(PermIds(role))
    ensures Distinct(ids)
    ensures forall x :: x in ids <==> x in PermIds(role)
  {
    var perms := PermsOf(role);
    ghost var all := PermIds(role);
    ids := [];
    for i := 0 to |perms|
      invariant ids == Dedup(all[..i])
    {
      var id := perms[i].id;
      assert id == all[i];
      DedupPrefixStep(all, i);
      if id !in ids {
        ids := ids + [id];
      }
    }
    assert all[..|perms|] == all;
    forall x ensures x in ids <==> x in all {
      DedupMembers(all, x);
    }
  }

  /** A checkbox is ticked iff its id is in the selected role's set. */
  predicate Checked(selectedPermIds: seq<int>, permId: int) {
    permId in selectedPermIds
  }

  /** `next.has(id) ? next.delete(id) : next.add(id)` on an insertion-ordered set. */
  function ToggleSet(current: seq<int>, permId: int): (r: seq<int>)
    ensures forall x :: x in r <==> (x in current && x != permId) || (x == permId && permId !in current)
  {
    if permId in current then Filter(current, (x: int) => x != permId) else current + [permId]
  }

  /** A toggled set still holds each id once. */
  lemma ToggleKeepsDistinct(current: seq<int>, permId: int)
    requires Distinct(current)
    ensures Distinct(ToggleSet(current, permId))
  {
    if permId in current {
      FilterDistinct(current, (x: int) => x != permId);
    }
  }

  /** Toggling twice gives back the same set; the list itself comes back unchanged
      when the id was not in it (a removed id comes back at the end). */
  lemma ToggleTwiceRestores(current: seq<int>, permId: int)
    ensures forall x :: x in ToggleSet(ToggleSet(current, permId), permId) <==> x in current
    ensures permId !in current ==> ToggleSet(ToggleSet(current, permId), permId) == current
  {
    if permId !in current {
      var added := current + [permId];
      FilterAppend(current, [permId], (x: int) => x != permId);
      FilterKeepsAll(current, (x: int) => x != permId);
      assert Filter([permId], (x: int) => x != permId) == [];
    }
  }

  /** The request of a toggle: the role's id and the ids of the new set. */
  datatype PermissionsPut = PermissionsPut(roleId: int, permissionIds: seq<int>)

  /** `togglePermission`: nothing without a selected role; otherwise the copied set
      loses or gains the id and is sent for the role. */
  method TogglePermission(selected: Option<Role>, selectedPermIds: seq<int>, permId: int) returns (req: Option<PermissionsPut>)
    ensures req.None? <==> selected.None?
    ensures req.Some? ==> req.value.roleId == selected.value.id
    ensures req.Some? ==> req.value.permissionIds == ToggleSet(selectedPermIds, permId)
    ensures req.Some? ==> (Checked(req.value.permissionIds, permId) <==> !Checked(selectedPermIds, permId))
  {
    if selected.None? {
      return None;
    }
    var next := selectedPermIds;
    if permId in next {
      next := Filter(next, (x: int) => x != permId);
    } else {
      next := next + [permId];
    }
    req := Some(PermissionsPut(selected.value.id, next));
  }
}
