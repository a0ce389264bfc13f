/** The actions of the two VO role tables, the admin panel's and the identity panel's, which
    carry the same code: each forwards one remote call inside a `try` and reports `False`
    when it raises. Also the `yesnoen` status filter of the identity panel's role table. */
module VoTables {
  import opened Wrappers
  import opened Text
  import opened Keystone

  /** `DeleteRole.delete`: `vo_role_delete(request, obj_id)`, True unless it raises. */
  function DeleteRole(objId: string, raises: Call -> bool): (r: ActionResult)
    ensures r.issued == Some(VoRoleDelete(objId))
    ensures r.ok <==> !raises(VoRoleDelete(objId))
  {
    Attempt(VoRoleDelete(objId), raises)
  }

  /** `ApproveUser.action`: `vo_role_approve_request(request, table id, datum_id)`. */
  function ApproveUser(tableRoleId: Option<string>, datumId: string, raises: Call -> bool)
    : (r: ActionResult)
    ensures r.issued == Some(VoRoleApproveRequest(tableRoleId, datumId))
    ensures r.ok <==> !raises(VoRoleApproveRequest(tableRoleId, datumId))
  {
    Attempt(VoRoleApproveRequest(tableRoleId, datumId), raises)
  }

  /** `DeclineUser.action`: `vo_role_delete_request(request, table id, datum_id)`. */
  function DeclineUser(tableRoleId: Option<string>, datumId: string, raises: Call -> bool)
    : (r: ActionResult)
    ensures r.issued == Some(VoRoleDeleteRequest(tableRoleId, datumId))
    ensures r.ok <==> !raises(VoRoleDeleteRequest(tableRoleId, datumId))
  {
    Attempt(VoRoleDeleteRequest(tableRoleId, datumId), raises)
  }

  /** `RemoveBlacklist.action`: `vo_blacklist_delete_entry(request, table id, datum_id)`. */
  function RemoveBlacklist(tableRoleId: Option<string>, datumId: string, raises: Call -> bool)
    : (r: ActionResult)
    ensures r.issued == Some(VoBlacklistDeleteEntry(tableRoleId, datumId))
    ensures r.ok <==> !raises(VoBlacklistDeleteEntry(tableRoleId, datumId))
  {
    Attempt(VoBlacklistDeleteEntry(tableRoleId, datumId), raises)
  }

  /** `RemoveUserRole.delete`: `data = obj_id.split('@')`, then inside the `try`
      `vo_membership_delete(request, table id, data[0], data[1])`. With no '@' the
      index `data[1]` raises before the call is made, and the `except` returns False. */
  function RemoveUserRole(tableRoleId: Option<string>, objId: string, raises: Call -> bool)
    : (r: ActionResult)
    ensures r.issued.Some? <==> '@' in objId
    ensures !r.ok ==> r.issued.None? || raises(r.issued.value)
    ensures r.issued.None? ==> !r.ok
    ensures r.issued.Some? ==> r == Attempt(r.issued.value, raises)
  {
    var data := Split(objId, '@');
    SplitCount(objId, '@');
    CountPositive(objId, '@');
    if |data| < 2 then ActionResult(false, None)
    else Attempt(VoMembershipDelete(tableRoleId, data[0], data[1]), raises)
  }

  lemma {:induction false} CountPositive(s: string, c: char)
    ensures Count(s, c) > 0 <==> c in s
  {
    if s != [] {
      CountPositive(s[1..], c);
      assert s == [s[0]] + s[1..];
    }
  }

  /** A key composed from '@'-free parts is forwarded as exactly those parts. */
  lemma RemoveUserRoleRoundTrip(tableRoleId: Option<string>, uid: string, idp: string,
                                raises: Call -> bool)
    requires '@' !in uid && '@' !in idp
    ensures RemoveUserRole(tableRoleId, MemberId(uid, idp), raises)
            == Attempt(VoMembershipDelete(tableRoleId, uid, idp), raises)
  {
    MemberIdRoundTrip(uid, idp);
  }

  /** A key without '@' fails without a remote call. */
  lemma RemoveUserRoleMalformed(tableRoleId: Option<string>, objId: string,
                                raises: Call -> bool)
    requires '@' !in objId
    ensures RemoveUserRole(tableRoleId, objId, raises) == ActionResult(false, None)
  {
    SplitWithoutSeparator(objId, '@');
  }

  /** With more than one '@', the first two segments are forwarded and the rest dropped. */
  lemma RemoveUserRoleExtraSegments(tableRoleId: Option<string>, u: string, i: string,
                                    rest: string, raises: Call -> bool)
    requires '@' !in u && '@' !in i
    ensures RemoveUserRole(tableRoleId, u + "@" + i + "@" + rest, raises)
            == Attempt(VoMembershipDelete(tableRoleId, u, i), raises)
  {
    var id := u + "@" + i + "@" + rest;
    assert id == u + ['@'] + (i + ['@'] + rest);
    SplitAtFirst(u, i + ['@'] + rest, '@');
    SplitAtFirst(i, rest, '@');
  }

  // ---------------------------------------------------------------- status filter

  /** `RoleTable.yesnoen`: `'Enabled'` when the value compares equal to `True`, which in
      Python is also the integer 1; `'Disabled'` for everything else. */
  function Yesnoen(v: Value): (r: string)
    ensures r == "Enabled" || r == "Disabled"
    ensures r == "Enabled" <==> v == Bool(true) || v == Int(1)
  {
    if v == Bool(true) || v == Int(1) then "Enabled" else "Disabled"
  }
}
