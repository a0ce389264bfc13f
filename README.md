# Horizon dashboard glue: a verified model

This project models the logic that sits under the Django/Horizon glue of a Horizon fork
with federation and Virtual Organisation (VO) panels. It covers:

- **The Trove "Launch Database" workflow** (`CreateInstance`):
  - the builders that turn the workflow context into the arguments of `instance_create`: comma-separated database names, the initial user, the backup reference and one NIC per network;
  - the network step's cleaning of the posted ids;
  - the user/password/database rule of the "Initialize Databases" step;
  - the backup and flavor choice lists.
- **The naive case-insensitive table filters** of the identity providers, protocols and mappings tables (`IdentityProvidersTables`, `MappingsTables`). Two more pieces of those tables: the edit-protocol link arguments and the row display.
- **The identity provider views** (`IdentityProvidersViews`): the space-separated protocol column built by a loop, the index view, and the initial values of the protocol forms.
- **The VO panels**:
  - the composite `"<uid>@<idp>"` membership key and its decoding by the remove action;
  - the in-place, stable, case-insensitive sort of role lists, shared by three index views (`Keystone`);
  - the table actions that turn a remote exception into `False` (`VoTables`);
  - the admin views (`AdminVoViews`);
  - the VO role workflows (`VoAdminWorkflows`): the name and role validators, the `role_users` contribution, the handlers, and the status messages formatted with Python's `%`.

Shared modules state the Python semantics the code relies on. `Text` covers ASCII `lower`, `upper`, substring `in`, `split`, `join` and `strip`. `Seqs` covers list comprehensions with a condition, including conditions that raise. `Sorting` covers string order and the stable sort `list.sort` performs; the tuple order the flavor choices are sorted by is `CreateInstance.ChoiceLe`.

Every remote client call (Keystone, Trove, Neutron, the federation client) is an oracle parameter. A `Remote<T>` says that the call returned a value or failed. A `Call -> bool` function says which mutating calls the service rejects. A view method ends in an `Outcome`:

- `Done` when it produced a value;
- `Redirected` when `exceptions.handle(..., redirect=...)` handled a failure;
- `Raised` when an exception escapes the view.

Code that updates state takes imperative form:

- `list.sort` and the id rewrite of the membership view work in place on arrays;
- the protocol-column loop runs in a class constructor;
- the workflow context and `self.object` are fields of classes whose methods modify them.

Two behaviours of the code worth noting:

- `yesnoen` compares with `== True`, which in Python also holds for the integer 1.
- `AddUserView.get_initial` reads `role.vo_name` after a failure it only reports, so that failure raises instead of producing initial values.

## Model

| member | source | states |
|---|---|---|
| Text.Lower | openstack_dashboard/dashboards/identity/identity_providers/tables.py:133 | `str.lower()` on ASCII: each character of the result is the case mapping of the character at the same place, so upper-case letters move to lower case, every other character is kept, and the length is unchanged |
| Text.LowerOfUpper | openstack_dashboard/dashboards/identity/identity_providers/tables.py:133 | lower-casing an upper-cased string gives the lower-cased string, which makes the filters case-insensitive in the query |
| Text.ContainsIffOccurs | openstack_dashboard/dashboards/identity/identity_providers/tables.py:135 | the substring test `q in s` holds exactly when `q` occurs in `s` at some position |
| Text.SplitCount | openstack_dashboard/dashboards/project/databases/workflows/create_instance.py:234 | `str.split(c)` gives one piece more than `c` occurs in the string, empty pieces included |
| Text.JoinSplit | openstack_dashboard/dashboards/project/databases/workflows/create_instance.py:234 | joining the pieces of `split(c)` with `c` gives the string back |
| Text.SplitPiecesFree | openstack_dashboard/dashboards/project/databases/workflows/create_instance.py:234 | no piece of `split(c)` contains `c` |
| Text.SplitJoin | openstack_dashboard/dashboards/admin/virtual_organisations/tables.py:110 | splitting pieces free of `c` joined with `c` gives those pieces back |
| Text.SplitAtFirst | openstack_dashboard/dashboards/admin/virtual_organisations/tables.py:110 | splitting `a + c + b` with `c` not in `a` gives `a` followed by the pieces of `b` |
| Text.StripIsInfix | openstack_dashboard/dashboards/project/databases/workflows/create_instance.py:234 | `str.strip()` returns a contiguous part of its argument with only whitespace cut before and after it |
| Text.StripEnds | openstack_dashboard/dashboards/project/databases/workflows/create_instance.py:234 | the result of `str.strip()` is empty or neither starts nor ends with whitespace |
| Seqs.FilterSubsequence | openstack_dashboard/dashboards/identity/identity_providers/tables.py:134-137 | a list comprehension with a condition keeps an order-preserving subsequence of its input |
| Seqs.FilterMembers | openstack_dashboard/dashboards/identity/identity_providers/tables.py:134-137 | an element is kept exactly when it is in the input and satisfies the condition |
| Seqs.TryFilterRaises | openstack_dashboard/dashboards/identity/mappings/tables.py:70-72 | a comprehension whose condition can raise raises exactly when the condition raises on some element |
| Seqs.TryFilterIsFilter | openstack_dashboard/dashboards/identity/mappings/tables.py:70-72 | a comprehension that does not raise keeps the elements on which its condition is true |
| Sorting.StrLeTotal | openstack_dashboard/dashboards/admin/virtual_organisations/views.py:35 | Python string comparison relates every two strings |
| Sorting.StrLeTransitive | openstack_dashboard/dashboards/admin/virtual_organisations/views.py:35 | Python string comparison is transitive |
| Sorting.SortIsSorted | openstack_dashboard/dashboards/admin/virtual_organisations/views.py:35 | the stable sort leaves the list non-decreasing under a total preorder |
| Sorting.SortIsPermutation | openstack_dashboard/dashboards/admin/virtual_organisations/views.py:35 | the sort returns a permutation of its input |
| Sorting.SortIsStable | openstack_dashboard/dashboards/admin/virtual_organisations/views.py:35 | elements that tie under the key keep their input order |
| Sorting.InsertLast | openstack_dashboard/dashboards/admin/virtual_organisations/views.py:35 | one step of the in-place sort inserts the next element into the sorted prefix and leaves the rest of the array alone |
| Sorting.SortInPlace | openstack_dashboard/dashboards/admin/virtual_organisations/views.py:35 | `list.sort` on the array: its new contents are the stable sort of its old contents |
| CreateInstance.GetDatabases | openstack_dashboard/dashboards/project/databases/workflows/create_instance.py:229-235 | None exactly when `databases` is missing or empty; otherwise one database per comma-separated piece (commas plus one), in order, the k-th named by the k-th piece stripped, so each name is comma-free and without whitespace at either end |
| CreateInstance.GetDatabasesRoundTrip | openstack_dashboard/dashboards/project/databases/workflows/create_instance.py:232-234 | names free of commas and outer whitespace, typed as a comma-separated list with any whitespace around each name (`"a, b"`), come back as exactly those names in order |
| CreateInstance.GetUsers | openstack_dashboard/dashboards/project/databases/workflows/create_instance.py:237-248 | None when `user` is falsy; otherwise exactly one user with the name, the password and `_get_databases`, with `host` present exactly when it is non-empty; a context missing `password` or `host` raises |
| CreateInstance.GetBackup | openstack_dashboard/dashboards/project/databases/workflows/create_instance.py:250-254 | a backup reference exactly when `backup` is truthy, holding that backup |
| CreateInstance.GetNics | openstack_dashboard/dashboards/project/databases/workflows/create_instance.py:256-262 | None for a missing or empty `network_id`; otherwise one NIC per network id, in order, with an empty fixed IP |
| CreateInstance.Handle | openstack_dashboard/dashboards/project/databases/workflows/create_instance.py:264-283 | `instance_create` is called with the name, volume, flavor and the four built arguments when they can be built; the result is True exactly when that call is made and does not raise |
| CreateInstance.DropEmpty | openstack_dashboard/dashboards/project/databases/workflows/create_instance.py:111 | exactly the non-empty posted ids are kept, in their posted order |
| CreateInstance.DropEmptyKeepsIds | openstack_dashboard/dashboards/project/databases/workflows/create_instance.py:111 | a posted list without empty ids is kept whole |
| CreateInstance.LaunchInstance.SetNetworkContribute | openstack_dashboard/dashboards/project/databases/workflows/create_instance.py:106-115 | `network_id` is set to the non-empty posted ids only when the step has data and some id remains; otherwise the context is unchanged |
| CreateInstance.ContributedNetworksBecomeNics | openstack_dashboard/dashboards/project/databases/workflows/create_instance.py:106-115 | after the network step sets `network_id`, the launch gets one NIC per chosen non-empty id, each of them posted |
| CreateInstance.CleanErrors | openstack_dashboard/dashboards/project/databases/workflows/create_instance.py:145-155 | with a user, an error on `password` exactly when it is missing and on `databases` exactly when they are missing, both possible at once; no errors without a user |
| CreateInstance.AddDatabasesAction.Clean | openstack_dashboard/dashboards/project/databases/workflows/create_instance.py:145-155 | records those errors and returns the cleaned data unaltered |
| CreateInstance.CompletedChoices | openstack_dashboard/dashboards/project/databases/workflows/create_instance.py:176-177 | at most one choice per backup |
| CreateInstance.CompletedChoicesMembers | openstack_dashboard/dashboards/project/databases/workflows/create_instance.py:176-177 | a choice is listed exactly when some COMPLETED backup has that id and name |
| CreateInstance.CompletedChoicesAppend | openstack_dashboard/dashboards/project/databases/workflows/create_instance.py:176-177 | the choices of two lists of backups are those of each list, in order |
| CreateInstance.BackupChoices | openstack_dashboard/dashboards/project/databases/workflows/create_instance.py:173-185 | one placeholder with an empty value first, "Select backup" when completed backups follow and "No backups available" otherwise; a failed list gives only that second placeholder |
| CreateInstance.FlavorPairs | openstack_dashboard/dashboards/project/databases/workflows/create_instance.py:51 | one `(id, name)` pair per flavor, in order |
| CreateInstance.ChoiceLeIsTotalPreorder | openstack_dashboard/dashboards/project/databases/workflows/create_instance.py:52 | Python tuple comparison of `(id, name)` pairs is a total preorder |
| CreateInstance.FlavorChoicesAsWritten | openstack_dashboard/dashboards/project/databases/workflows/create_instance.py:42-52 | a failed flavor list makes the view raise; otherwise the pairs sorted ascending, a permutation of the flavor pairs |
| CreateInstance.FlavorChoices | openstack_dashboard/dashboards/project/databases/workflows/create_instance.py:42-52 | no choices after a failed list; otherwise the pairs sorted ascending and a permutation of the flavor pairs |
| IdentityProvidersTables.IdpTestAsWritten | openstack_dashboard/dashboards/identity/identity_providers/tables.py:135-137 | the row test raises exactly when the id does not match and the description is None; otherwise it is true exactly when the query occurs in the id, description or protocols |
| IdentityProvidersTables.IdentityProviderFilter | openstack_dashboard/dashboards/identity/identity_providers/tables.py:131-137 | an order-preserving subsequence of the rows holding exactly those whose lower-cased id, description or protocols contain the lower-cased query |
| IdentityProvidersTables.IdentityProviderFilterAsWritten | openstack_dashboard/dashboards/identity/identity_providers/tables.py:131-137 | raises exactly when some row has a None description and an id that does not match; otherwise the filter above |
| IdentityProvidersTables.IdentityProviderFilterEmptyQuery | openstack_dashboard/dashboards/identity/identity_providers/tables.py:133-137 | the empty query keeps every row, and then the filter as written does not raise |
| IdentityProvidersTables.IdentityProviderFilterCaseInsensitive | openstack_dashboard/dashboards/identity/identity_providers/tables.py:133 | a query and its upper-cased form give the same result |
| IdentityProvidersTables.ProtocolFilter | openstack_dashboard/dashboards/identity/identity_providers/tables.py:140-145 | an order-preserving subsequence holding exactly the rows whose lower-cased id or mapping id contain the lower-cased query |
| IdentityProvidersTables.ProtocolFilterEmptyQuery | openstack_dashboard/dashboards/identity/identity_providers/tables.py:142-145 | the empty query keeps every protocol |
| IdentityProvidersTables.ProtocolFilterCaseInsensitive | openstack_dashboard/dashboards/identity/identity_providers/tables.py:142 | a query and its upper-cased form give the same result |
| IdentityProvidersTables.EditProtocolLinkKwargs | openstack_dashboard/dashboards/identity/identity_providers/tables.py:67-70 | the link arguments are the table arguments with `protocol` set to the row id and every other key kept |
| IdentityProvidersTables.ObjectDisplay | openstack_dashboard/dashboards/identity/identity_providers/tables.py:153-156 | the row id when the row has one, else None; the same code is at `openstack_dashboard/dashboards/identity/identity_providers/tables.py:169-172` |
| MappingsTables.MappingTest | openstack_dashboard/dashboards/identity/mappings/tables.py:71-72 | the rules are read only when the id does not match; rules that are not a string then raise; otherwise true exactly when the query occurs in the id or the rules |
| MappingsTables.MappingFilter | openstack_dashboard/dashboards/identity/mappings/tables.py:67-72 | raises exactly when a row fails the id test and has rules that are not a string; otherwise an order-preserving subsequence of exactly the matching mappings |
| MappingsTables.MappingFilterAllIdsMatch | openstack_dashboard/dashboards/identity/mappings/tables.py:71-72 | when every id matches, every mapping is kept whatever its rules are |
| MappingsTables.MappingFilterEmptyQuery | openstack_dashboard/dashboards/identity/mappings/tables.py:69-72 | the empty query keeps every mapping |
| MappingsTables.MappingFilterCaseInsensitive | openstack_dashboard/dashboards/identity/mappings/tables.py:69 | a query and its upper-cased form give the same result |
| IdentityProvidersViews.ProtocolsTextAppend | openstack_dashboard/dashboards/identity/identity_providers/views.py:48-49 | each loop step appends the protocol id and one space |
| IdentityProvidersViews.ProtocolsTextLength | openstack_dashboard/dashboards/identity/identity_providers/views.py:47-49 | the protocol column is as long as the ids plus one space each |
| IdentityProvidersViews.ProtocolsTextEnds | openstack_dashboard/dashboards/identity/identity_providers/views.py:47-49 | no protocols give the empty string; otherwise it ends in a space |
| IdentityProvidersViews.ProtocolsTextIsJoin | openstack_dashboard/dashboards/identity/identity_providers/views.py:47-49 | the column is the ids joined by spaces followed by one more space |
| IdentityProvidersViews.ProtocolsTextSplit | openstack_dashboard/dashboards/identity/identity_providers/views.py:47-49 | splitting the column on spaces gives the ids back, then one empty piece, when no id contains a space |
| IdentityProvidersViews.IdentityProviderEntry.constructor | openstack_dashboard/dashboards/identity/identity_providers/views.py:43-49 | id and description are copied; `protocols` is each protocol id followed by a space, in list order |
| IdentityProvidersViews.IndexGetData | openstack_dashboard/dashboards/identity/identity_providers/views.py:56-65 | one entry per identity provider, in order, with its protocols; none when the provider list fails; raises exactly when some protocol list fails |
| IdentityProvidersViews.AddProtocolInitial | openstack_dashboard/dashboards/identity/identity_providers/views.py:156-160 | the provider id with an empty protocol and mapping id; a failed provider fetch redirects |
| IdentityProvidersViews.UpdateProtocolInitial | openstack_dashboard/dashboards/identity/identity_providers/views.py:173-181 | the protocol from the URL; the mapping id fetched only for a non-empty protocol, `""` otherwise; raises exactly when that fetch fails |
| Keystone.Attempt | openstack_dashboard/dashboards/admin/virtual_organisations/tables.py:12-18 | the call is made, and the action returns True exactly when it does not raise |
| Keystone.MemberIdRoundTrip | openstack_dashboard/dashboards/admin/virtual_organisations/views.py:75 | splitting `uid@idp` on `@` gives back `uid` and `idp` when neither contains `@` |
| Keystone.NameLeIsTotalPreorder | openstack_dashboard/dashboards/admin/virtual_organisations/views.py:35 | comparing lower-cased `vo_name`s is a total preorder |
| Keystone.RowsNamedLikeAreTies | openstack_dashboard/dashboards/admin/virtual_organisations/views.py:35 | two roles tie under that key exactly when their lower-cased names are equal |
| Keystone.SortByName | openstack_dashboard/dashboards/admin/virtual_organisations/views.py:35 | `data.sort(key=lambda vo: vo.vo_name.lower())` leaves the stable sort by lower-cased name in the array |
| Keystone.FetchSortedByName | openstack_dashboard/dashboards/admin/virtual_organisations/views.py:27-36 | the roles sorted by lower-cased name, a permutation of what `vo_roles_list` returned, equal names in fetched order; empty when the call raised; the same code is at `openstack_dashboard/dashboards/project/virtual_organisations/views.py:19-27` and at `openstack_dashboard/dashboards/identity/my_voroles/views.py:21-29` |
| Keystone.JoinRequestInitial | openstack_dashboard/dashboards/project/virtual_organisations/views.py:33-40 | the empty dict, never a redirect; the same code is at `openstack_dashboard/dashboards/identity/my_voroles/views.py:35-42` |
| VoTables.DeleteRole | openstack_dashboard/dashboards/admin/virtual_organisations/tables.py:12-18 | `vo_role_delete` is called with the id; True exactly when it does not raise; the same code is at `openstack_dashboard/dashboards/identity/vo_admin/tables.py:13-19` |
| VoTables.ApproveUser | openstack_dashboard/dashboards/admin/virtual_organisations/tables.py:139-145 | `vo_role_approve_request` with the table id and the request id; True exactly when it does not raise; the same code is at `openstack_dashboard/dashboards/identity/vo_admin/tables.py:150-159` |
| VoTables.DeclineUser | openstack_dashboard/dashboards/admin/virtual_organisations/tables.py:154-160 | `vo_role_delete_request` with the table id and the request id; True exactly when it does not raise; the same code is at `openstack_dashboard/dashboards/identity/vo_admin/tables.py:168-174` |
| VoTables.RemoveBlacklist | openstack_dashboard/dashboards/admin/virtual_organisations/tables.py:187-195 | `vo_blacklist_delete_entry` with the table id and the entry id; True exactly when it does not raise; the same code is at `openstack_dashboard/dashboards/identity/vo_admin/tables.py:203-210` |
| VoTables.RemoveUserRole | openstack_dashboard/dashboards/admin/virtual_organisations/tables.py:108-117 | the remote call is made exactly when the id contains `@`; with no call the result is False; with a call, True exactly when it does not raise; the same code is at `openstack_dashboard/dashboards/identity/vo_admin/tables.py:118-126` |
| VoTables.RemoveUserRoleRoundTrip | openstack_dashboard/dashboards/admin/virtual_organisations/tables.py:110-113 | for `u@i` with neither part containing `@`, the remote gets the table id, `u` and `i` |
| VoTables.RemoveUserRoleMalformed | openstack_dashboard/dashboards/admin/virtual_organisations/tables.py:110-116 | an id without `@` returns False and calls nothing; the same code is at `openstack_dashboard/dashboards/identity/vo_admin/tables.py:120-125` |
| VoTables.RemoveUserRoleExtraSegments | openstack_dashboard/dashboards/admin/virtual_organisations/tables.py:110-113 | with more `@`s, only the first two segments are forwarded |
| VoTables.Yesnoen | openstack_dashboard/dashboards/identity/vo_admin/tables.py:50-53 | "Enabled" exactly for a value equal to `True` in Python, which includes the integer 1; "Disabled" otherwise |
| AdminVoViews.ComposeRowIds | openstack_dashboard/dashboards/admin/virtual_organisations/views.py:72-75 | every row id becomes `uid@idp`, in place, and nothing else changes |
| AdminVoViews.ManageGetData | openstack_dashboard/dashboards/admin/virtual_organisations/views.py:66-80 | same count and order, ids composed, idp and name unchanged; a failed list redirects |
| AdminVoViews.ManagedRowRemovesItsMember | openstack_dashboard/dashboards/admin/virtual_organisations/views.py:75 | the composed id of a listed row, given to the remove action, removes that user through that provider |
| AdminVoViews.UpdateInitial | openstack_dashboard/dashboards/admin/virtual_organisations/views.py:46-61 | the PIN is always blank and the role fields are copied under the form keys; a failed fetch redirects |
| AdminVoViews.AddUserInitial | openstack_dashboard/dashboards/admin/virtual_organisations/views.py:167-176 | the role id from the URL and the fetched role name; a failed fetch is only reported, so reading `vo_name` afterwards raises |
| VoAdminWorkflows.NameCharRun | openstack_dashboard/dashboards/identity/vo_admin/workflows.py:14 | how far the greedy character class runs: every character before it is in the class, the one at it is not |
| VoAdminWorkflows.MatchesAsWrittenIff | openstack_dashboard/dashboards/identity/vo_admin/workflows.py:14 | the pattern as written accepts the strings the anchored pattern accepts and each of them followed by one newline |
| VoAdminWorkflows.AsWrittenAccepts | openstack_dashboard/dashboards/identity/vo_admin/workflows.py:14 | the pattern as written accepts exactly the non-empty strings of class characters and those followed by one newline |
| VoAdminWorkflows.MatchesAnchoredIff | openstack_dashboard/dashboards/identity/vo_admin/workflows.py:14 | the pattern anchored at the very end accepts exactly the non-empty strings of class characters |
| VoAdminWorkflows.TrailingNewlineAccepted | openstack_dashboard/dashboards/identity/vo_admin/workflows.py:14 | "vo\n" passes the pattern as written, and the name field, but contains a character outside the class; the anchored pattern rejects it |
| VoAdminWorkflows.RegexFieldErrors | openstack_dashboard/dashboards/identity/vo_admin/workflows.py:12-22 | an empty value reports only the required error; the length error exactly when the value is too long, the invalid error exactly when a non-empty value fails the pattern; no error exactly when the value is non-empty, matches and is short enough |
| VoAdminWorkflows.NameErrors | openstack_dashboard/dashboards/identity/vo_admin/workflows.py:12-18 | a VO name is accepted exactly when it is at most 255 characters and a non-empty run of letters, digits, `_`, `.`, `-` and spaces, possibly followed by one newline; the length error exactly when it is longer than 255 |
| VoAdminWorkflows.NameErrorsAnchored | openstack_dashboard/dashboards/identity/vo_admin/workflows.py:12-18 | with the pattern anchored at the very end, a VO name is accepted exactly when it is non-empty, at most 255 characters, and of letters, digits, `_`, `.`, `-` and spaces |
| VoAdminWorkflows.VoRoleErrors | openstack_dashboard/dashboards/identity/vo_admin/workflows.py:19-22 | `vo_role` is accepted exactly when it is a non-empty run of the same characters, possibly followed by one newline, of any length |
| VoAdminWorkflows.VoRoleErrorsAnchored | openstack_dashboard/dashboards/identity/vo_admin/workflows.py:19-22 | with the pattern anchored at the very end, `vo_role` is accepted exactly when it is non-empty and of the same characters |
| VoAdminWorkflows.CleanRoleInfo | openstack_dashboard/dashboards/identity/vo_admin/workflows.py:41-42 | `clean` returns the cleaned data unchanged; the same code is at `openstack_dashboard/dashboards/identity/vo_admin/workflows.py:92-93` |
| VoAdminWorkflows.CreateCallForwardsData | openstack_dashboard/dashboards/identity/vo_admin/workflows.py:67-75 | creating forwards every field but the role id, each under its own keyword |
| VoAdminWorkflows.UpdateCallForwardsData | openstack_dashboard/dashboards/identity/vo_admin/workflows.py:119-129 | updating forwards every field and always `vo_is_domain=False` |
| VoAdminWorkflows.RoleWorkflow.HandleCreate | openstack_dashboard/dashboards/identity/vo_admin/workflows.py:67-79 | True and the returned role stored in `self.object` exactly when `vo_role_create` returns; False with `self.object` unchanged when it raises |
| VoAdminWorkflows.RoleWorkflow.HandleUpdate | openstack_dashboard/dashboards/identity/vo_admin/workflows.py:119-133 | the same with `vo_role_update` |
| VoAdminWorkflows.PercentFromText | openstack_dashboard/dashboards/identity/vo_admin/workflows.py:65 | text without `%` is copied through by `%` formatting |
| VoAdminWorkflows.PercentSingle | openstack_dashboard/dashboards/identity/vo_admin/workflows.py:65 | a message with one `%s` and no other `%` becomes the text before it, the argument taken literally, and the text after it |
| VoAdminWorkflows.CreateMessagesName | openstack_dashboard/dashboards/identity/vo_admin/workflows.py:58-65 | the create success and failure messages carry the role name between their quotes |
| VoAdminWorkflows.UpdateMessagesName | openstack_dashboard/dashboards/identity/vo_admin/workflows.py:110-117 | the update success and failure messages carry the role name between their quotes |
| VoAdminWorkflows.StatusMessageNamesRole | openstack_dashboard/dashboards/identity/vo_admin/workflows.py:64-65 | two contexts giving the same message have the same `name` |
| VoAdminWorkflows.MembershipWorkflow.Contribute | openstack_dashboard/dashboards/identity/vo_admin/workflows.py:190-194 | with non-empty data only `role_users` changes, to the member field value or `[]`; empty data leaves the context unchanged; the same code is at `openstack_dashboard/dashboards/identity/vo_admin/workflows.py:262-266` |
| VoAdminWorkflows.MembershipWorkflow.Handle | openstack_dashboard/dashboards/identity/vo_admin/workflows.py:208-209 | always True and changes nothing; the same code is at `openstack_dashboard/dashboards/identity/vo_admin/workflows.py:280-281` |

## Left out

- The remote services themselves. What `vo_role_delete`, `instance_create`, `flavor_list` and the other calls do on the server is outside this code; they are oracles here.
- `exceptions.handle` re-raising exceptions it does not recognise. Every remote failure is treated as handled: it shows a message, and redirects where the call passes `redirect=`. Messages, logging and debug printing are not modelled.
- Rendering and URLs: `reverse`/`reverse_lazy`, the `get_link_url` methods that only reverse a URL, column filters such as `yesno` and `capfirst`, and template tags.
- How Django orders and enforces the field validators. `VoAdminWorkflows.RegexFieldErrors` states which errors a value gets, not the framework code that reports them.
- `SetNetworkAction.__init__` and `populate_network_choices`, `RestoreAction.clean_backup`, and `LaunchInstance.format_status_message`: each forwards to a remote call or formats a message through a translated lazy string, with no local logic beyond it.
- `AddUserAction.__init__` and `MoveUserAction.__init__`, which fill choice fields from remote lists and from hard-coded fixtures, and the unused `Userr`/`Data` classes.
- `AddUser.format_status_message` and `MoveUser.format_status_message`, which format the repr of a Python list.
- `VoAdminWorkflows.MembershipWorkflow.Contribute`: the member field name comes from Horizon's `get_member_field_name('member')`, which this code does not define. It is a parameter.
- `VoAdminWorkflows.Percent`: only the `%s` and `%%` conversions are modelled. Any other conversion is reported as raising, although Python formats some of them, for example `%r`. The messages of this code use only `%s`.
- `IdentityProvidersViews.UpdateProtocolInitial`: the failure of `keystoneclient()` itself, outside the `try`, is not modelled. Only the protocol fetch is an oracle.
- `AdminVoViews.ManageGetData`: the rows are values rewritten in an array. That other references to the same row objects see the new ids is not modelled.
- `Sorting.SortInPlace`: the array is sorted by insertion sort, not by Python's own algorithm. Both are stable sorts under the same key, so the result is the same; that equality is not proved here.
- Unicode: `lower()` and `upper()` are ASCII case mappings, and `\w` is the ASCII word class of a pattern compiled without `re.UNICODE`.
- Python 2's distinction between `str` and `unicode`: all strings are sequences of characters.

## Findings

| source | as written | input that shows it | evidently intended | confidence | as-written member | corrected member |
|---|---|---|---|---|---|---|
| openstack_dashboard/dashboards/project/databases/workflows/create_instance.py:42-52 | a failing `flavor_list` makes `flavors()` set `self._flavors = []` and return None, so the comprehension iterates None and raises `TypeError` | `flavor_list` raising | an empty flavor choice list | not executed; high | CreateInstance.FlavorChoicesAsWritten | CreateInstance.FlavorChoices |
| openstack_dashboard/dashboards/identity/vo_admin/workflows.py:14 | `$` also matches before a final newline, so a VO name or role ending in one newline passes the pattern (when the form field does not strip its input) | the name `"vo\n"` | reject every character outside `[\w\.\- ]` | not executed; medium | VoAdminWorkflows.TrailingNewlineAccepted | VoAdminWorkflows.NameErrorsAnchored |
| openstack_dashboard/dashboards/identity/identity_providers/tables.py:136 | every entry has a `description` attribute, so `getattr(idp, 'description', '')` returns None for a provider without a description, and `.lower()` raises `AttributeError` once the id test fails | a provider with description None whose id does not contain the query | read a missing description as `''` | not executed; medium | IdentityProvidersTables.IdentityProviderFilterAsWritten | IdentityProvidersTables.IdentityProviderFilter |
