/** The views of the admin Virtual Organisations panel: the membership list with its
    composite row ids, and the initial values of the update and add-user workflows. The
    sorted role list of its index view is `Keystone.FetchSortedByName`. */
module AdminVoViews {
  import opened Wrappers
  import opened Keystone
  import opened VoTables

  // ---------------------------------------------------------------- membership list

  /** The loop of `ManageView.get_data`: every row's id becomes `"<uid>@<idp>"`, in place. */
  method ComposeRowIds(a: array<Membership>)
    modifies a
    ensures forall k :: 0 <= k < a.Length ==>
              a[k] == old(a[k]).(id := MemberId(old(a[k]).id, old(a[k]).idp))
  {
    var i := 0;
    while i < a.Length
      invariant 0 <= i <= a.Length
      invariant forall k :: 0 <= k < i ==>
                  a[k] == old(a[k]).(id := MemberId(old(a[k]).id, old(a[k]).idp))
      invariant forall k :: i <= k < a.Length ==> a[k] == old(a[k])
    {
      var uid := a[i].id;
      var idp := a[i].idp;
      a[i] := a[i].(id := MemberId(uid, idp));
      i := i + 1;
    }
  }

  /** `ManageView.get_data`: the memberships of the role with every id rewritten to the
      composite key and nothing else changed; a failed list is handled with a redirect. */
  method ManageGetData(fetched: Remote<seq<Membership>>) returns (out: Outcome<seq<Membership>>)
    ensures fetched.Failed? <==> out.Redirected?
    ensures !out.Raised?
    ensures out.Done? ==>
              && |out.value| == |fetched.value|
              && forall k :: 0 <= k < |out.value| ==>
                   && out.value[k].id == MemberId(fetched.value[k].id, fetched.value[k].idp)
                   && out.value[k].idp == fetched.value[k].idp
                   && out.value[k].name == fetched.value[k].name
  {
    if fetched.Failed? {
      return Redirected;
    }
    var rows := fetched.value;
    var a := new Membership[|rows|](k requires 0 <= k < |rows| => rows[k]);
    ComposeRowIds(a);
    out := Done(a[..]);
  }

  /** The composite id of a listed row, handed to `RemoveUserRole.delete`, removes exactly
      that user's membership through that identity provider, when neither contains '@'. */
  lemma ManagedRowRemovesItsMember(tableRoleId: Option<string>, row: Membership,
                                   raises: Call -> bool)
    requires '@' !in row.id && '@' !in row.idp
    ensures var listed := row.(id := MemberId(row.id, row.idp));
            RemoveUserRole(tableRoleId, listed.id, raises)
            == Attempt(VoMembershipDelete(tableRoleId, row.id, row.idp), raises)
  {
    RemoveUserRoleRoundTrip(tableRoleId, row.id, row.idp, raises);
  }

  // ---------------------------------------------------------------- workflow initials

  /** The initial values of the role update workflow. */
  datatype RoleInitial = RoleInitial(
    roleId: string, name: string, voRole: string, enabled: bool, autoJoin: bool,
    description: string, pin: string)

  /** `UpdateView.get_initial`: the fetched role's fields under the form's keys, with the
      PIN always blank; a failed fetch is handled with a redirect to the index. */
  function UpdateInitial(role: Remote<VoRole>): (r: Outcome<RoleInitial>)
    ensures role.Failed? <==> r.Redirected?
    ensures !r.Raised?
    ensures r.Done? ==> r.value.pin == ""
    ensures r.Done? ==> RoleOfInitial(r.value) == role.value
  {
    match role
    case Failed => Redirected
    case Returned(v) =>
      Done(RoleInitial(v.id, v.voName, v.voRole, v.enabled, v.automaticJoin, v.description, ""))
  }

  /** The role an update form's initial values describe. */
  function RoleOfInitial(init: RoleInitial): VoRole
  {
    VoRole(init.roleId, init.name, init.voRole, init.enabled, init.autoJoin, init.description)
  }

  /** The initial values of the add-user workflow. */
  datatype AddUserInitialValues = AddUserInitialValues(roleId: string, name: string)

  /** `AddUserView.get_initial`: the role id from the URL and the fetched role's name. The
      failure of `vo_role_get` is only reported, so reading `role.vo_name` afterwards raises. */
  function AddUserInitial(urlRoleId: string, role: Remote<VoRole>): (r: Outcome<AddUserInitialValues>)
    ensures role.Failed? <==> r.Raised?
    ensures !r.Redirected?
    ensures r.Done? ==> r.value.roleId == urlRoleId && r.value.name == role.value.voName
  {
    match role
    case Failed => Raised
    case Returned(v) => Done(AddUserInitialValues(urlRoleId, v.voName))
  }
}
