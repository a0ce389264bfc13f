/** The Virtual Organisation records the identity service returns, the remote calls the
    VO tables make, and the logic the admin and identity VO panels share: the
    `"<user>@<idp>"` membership key and the case-insensitive sort of VO role lists. */
module Keystone {
  import opened Wrappers
  import opened Text
  import opened Seqs
  import opened Sorting

  /** A VO role as `vo_roles_list` / `vo_role_get` return it. */
  datatype VoRole = VoRole(
    id: string, voName: string, voRole: string,
    enabled: bool, automaticJoin: bool, description: string)

  /** One membership row of `vo_membership_list`: `id` is the user id until the manage
      view rewrites it into the composite key. */
  datatype Membership = Membership(id: string, idp: string, name: string)

  // ---------------------------------------------------------------- remote mutators

  /** The mutating remote calls of the VO tables, with the arguments they forward.
      `roleId` is `self.table.kwargs.get('id')`, which is None when the URL has no id. */
  datatype Call =
    | VoRoleDelete(roleId: string)
    | VoMembershipDelete(tableRoleId: Option<string>, userId: string, idp: string)
    | VoRoleApproveRequest(tableRoleId: Option<string>, requestId: string)
    | VoRoleDeleteRequest(tableRoleId: Option<string>, requestId: string)
    | VoBlacklistDeleteEntry(tableRoleId: Option<string>, entryId: string)

  /** What a table action returns to the table (`ok`), and the remote call it made, if any. */
  datatype ActionResult = ActionResult(ok: bool, issued: Option<Call>)

  /** `try: call  except Exception: return False;  return True`, where `raises` says
      which calls the remote service rejects. */
  function Attempt(c: Call, raises: Call -> bool): (r: ActionResult)
    ensures r.issued == Some(c)
    ensures r.ok <==> !raises(c)
  {
    ActionResult(!raises(c), Some(c))
  }

  // ---------------------------------------------------------------- membership key

  /** `"%(uid)s@%(idp)s" % {...}`. */
  function MemberId(uid: string, idp: string): string
  {
    uid + "@" + idp
  }

  /** Splitting the composite key on '@' recovers the user and the identity provider
      when neither contains '@'. */
  lemma MemberIdRoundTrip(uid: string, idp: string)
    requires '@' !in uid && '@' !in idp
    ensures Split(MemberId(uid, idp), '@') == [uid, idp]
  {
    assert Join([uid, idp], '@') == MemberId(uid, idp);
    SplitJoin([uid, idp], '@');
  }

  // ---------------------------------------------------------------- sort by name

  /** The order of `key=lambda vo: vo.vo_name.lower()`. */
  predicate NameLe(a: VoRole, b: VoRole)
  {
    StrLe(Lower(a.voName), Lower(b.voName))
  }

  lemma NameLeIsTotalPreorder()
    ensures TotalPreorder(NameLe)
  {
    forall x, y ensures NameLe(x, y) || NameLe(y, x) {
      StrLeTotal(Lower(x.voName), Lower(y.voName));
    }
    forall x, y, z | NameLe(x, y) && NameLe(y, z) ensures NameLe(x, z) {
      StrLeTransitive(Lower(x.voName), Lower(y.voName), Lower(z.voName));
    }
  }

  /** The test "has the same lower-cased name as `r`". */
  function SameNameAs(r: VoRole): VoRole -> bool
  {
    (y: VoRole) => Lower(y.voName) == Lower(r.voName)
  }

  /** The rows of `s` whose lower-cased name is that of `r`, in their order in `s`. */
  function RowsNamedLike(s: seq<VoRole>, r: VoRole): seq<VoRole>
  {
    Filter(s, SameNameAs(r))
  }

  /** Rows tie under `NameLe` exactly when their lower-cased names are equal. */
  lemma RowsNamedLikeAreTies(s: seq<VoRole>, r: VoRole)
    ensures RowsNamedLike(s, r) == Ties(s, r, NameLe)
  {
    forall k | 0 <= k < |s|
      ensures SameNameAs(r)(s[k]) == TiesWith(r, NameLe)(s[k])
    {
      StrLeTotal(Lower(r.voName), Lower(s[k].voName));
      if NameLe(r, s[k]) && NameLe(s[k], r) {
        StrLeAntisymmetric(Lower(r.voName), Lower(s[k].voName));
      }
    }
    FilterAgree(s, SameNameAs(r), TiesWith(r, NameLe));
  }

  /** `data.sort(key=lambda vo: vo.vo_name.lower())` applied in place to `a`. */
  method SortByName(a: array<VoRole>)
    modifies a
    ensures a[..] == InsertionSort(old(a[..]), NameLe)
  {
    SortInPlace(a, NameLe);
  }

  /** The body the three VO index views share: `data = []`, `data = <remote list>` inside a
      `try` whose `except` keeps `[]`, then `data.sort(key=...)`. The result is sorted by
      lower-cased name, a permutation of what was fetched, and stable on equal names. */
  method FetchSortedByName(fetched: Remote<seq<VoRole>>) returns (data: seq<VoRole>)
    ensures fetched.Failed? ==> data == []
    ensures var list := if fetched.Returned? then fetched.value else [];
            && SortedBy(data, NameLe)
            && multiset(data) == multiset(list)
            && (forall r :: RowsNamedLike(data, r) == RowsNamedLike(list, r))
  {
    var list := if fetched.Returned? then fetched.value else [];
    var a := new VoRole[|list|](k requires 0 <= k < |list| => list[k]);
    assert a[..] == list;
    SortByName(a);
    data := a[..];
    NameLeIsTotalPreorder();
    SortIsSorted(list, NameLe);
    SortIsPermutation(list, NameLe);
    forall r ensures RowsNamedLike(data, r) == RowsNamedLike(list, r) {
      RowsNamedLikeAreTies(data, r);
      RowsNamedLikeAreTies(list, r);
      SortIsStable(list, r, NameLe);
    }
  }

  // ---------------------------------------------------------------- join request initial

  /** `JoinRequestView.get_initial` of the project and identity VO panels: the empty dict.
      The `try` around the literal cannot raise, so its redirect is never taken. */
  function JoinRequestInitial(): (r: Outcome<map<string, Value>>)
    ensures r.Done? && r.value == map[]
  {
    Done(map[])
  }
}
