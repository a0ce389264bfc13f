/** The Trove "Launch Database" workflow: the arguments `LaunchInstance.handle` builds for
    `instance_create` from the workflow context, the network step that writes
    `network_id` into that context, the cross-field rule of the "Initialize Databases"
    step, and the backup and flavor choice lists. */
module CreateInstance {
  import opened Wrappers
  import opened Text
  import opened Seqs
  import opened Sorting

  /** The workflow context. A key no step contributed is `None`; a contributed key holds
      the string the form cleaned (possibly empty), or, for `network_id`, the id list. */
  datatype LaunchContext = LaunchContext(
    name: Option<string>, volume: Option<int>, flavor: Option<string>,
    networkId: Option<seq<string>>,
    databases: Option<string>, user: Option<string>, password: Option<string>,
    host: Option<string>, backup: Option<string>)

  /** `{'name': ...}` */
  datatype DatabaseSpec = DatabaseSpec(name: string)

  /** `{'name': ..., 'password': ..., 'databases': ...}`, with `host` present only when set. */
  datatype UserSpec = UserSpec(
    name: string, password: string, databases: Option<seq<DatabaseSpec>>, host: Option<string>)

  /** `{'backupRef': ...}` */
  datatype BackupRef = BackupRef(backupRef: string)

  /** `{"net-id": ..., "v4-fixed-ip": ...}` */
  datatype Nic = Nic(netId: string, v4FixedIp: string)

  // ---------------------------------------------------------------- launch arguments

  /** `_get_databases`: None unless `databases` is truthy; otherwise one database per
      comma-separated piece, named by the stripped piece. Empty pieces are kept. */
  function GetDatabases(ctx: LaunchContext): (r: Option<seq<DatabaseSpec>>)
    ensures r.None? <==> !Truthy(ctx.databases)
    ensures r.Some? ==> |r.value| == Count(ctx.databases.value, ',') + 1
    ensures r.Some? ==> forall k :: 0 <= k < |r.value| ==> ',' !in r.value[k].name
    ensures r.Some? ==> forall k :: 0 <= k < |r.value| ==>
              r.value[k].name == [] || (!IsSpace(r.value[k].name[0])
                                        && !IsSpace(r.value[k].name[|r.value[k].name| - 1]))
    ensures r.Some? ==> |r.value| == |Split(ctx.databases.value, ',')|
                        && forall k :: 0 <= k < |r.value| ==>
                             r.value[k].name == Strip(Split(ctx.databases.value, ',')[k])
  {
    if Truthy(ctx.databases) then
      var pieces := Split(ctx.databases.value, ',');
      SplitCount(ctx.databases.value, ',');
      SplitPiecesFree(ctx.databases.value, ',');
      StripPieces(pieces);
      Some(seq(|pieces|, k requires 0 <= k < |pieces| => DatabaseSpec(Strip(pieces[k]))))
    else None
  }

  /** Stripping a comma-free piece leaves it comma-free. */
  lemma StripKeepsCommaFree(p: string)
    requires ',' !in p
    ensures ',' !in Strip(p)
  {
    StripIsInfix(p);
  }

  /** Stripping comma-free pieces leaves them comma-free, with no whitespace at either end. */
  lemma StripPieces(pieces: seq<string>)
    requires forall k :: 0 <= k < |pieces| ==> ',' !in pieces[k]
    ensures forall k :: 0 <= k < |pieces| ==> ',' !in Strip(pieces[k])
    ensures forall k :: 0 <= k < |pieces| ==>
              Strip(pieces[k]) == [] || (!IsSpace(Strip(pieces[k])[0])
                                         && !IsSpace(Strip(pieces[k])[|Strip(pieces[k])| - 1]))
  {
    forall k | 0 <= k < |pieces|
      ensures ',' !in Strip(pieces[k])
      ensures Strip(pieces[k]) == [] || (!IsSpace(Strip(pieces[k])[0])
                                         && !IsSpace(Strip(pieces[k])[|Strip(pieces[k])| - 1]))
    {
      StripKeepsCommaFree(pieces[k]);
      StripEnds(pieces[k]);
    }
  }

  /** Database names typed as a comma-separated list, each piece possibly padded with
      whitespace (`"a, b"`), come back one per name, in order, provided the names are
      comma-free, neither start nor end with whitespace, and the list is not the empty
      string. */
  lemma {:induction false} GetDatabasesRoundTrip(ctx: LaunchContext, names: seq<string>,
                                                 before: seq<string>, after: seq<string>)
    requires |names| >= 1 && |before| == |names| && |after| == |names|
    requires forall k :: 0 <= k < |names| ==> ',' !in names[k]
    requires forall k :: 0 <= k < |names| ==>
               names[k] == [] || (!IsSpace(names[k][0]) && !IsSpace(names[k][|names[k]| - 1]))
    requires forall k :: 0 <= k < |names| ==> AllSpace(before[k]) && AllSpace(after[k])
    requires ctx.databases == Some(Join(Padded(names, before, after), ','))
    requires Join(Padded(names, before, after), ',') != ""
    ensures GetDatabases(ctx) == Some(seq(|names|, k requires 0 <= k < |names| => DatabaseSpec(names[k])))
  {
    var pieces := Padded(names, before, after);
    forall k | 0 <= k < |pieces|
      ensures ',' !in pieces[k] && Strip(pieces[k]) == names[k]
    {
      StripPadded(before[k], names[k], after[k]);
      SpaceIsNotComma(before[k]);
      SpaceIsNotComma(after[k]);
    }
    var text := Join(pieces, ',');
    SplitJoin(pieces, ',');
    assert Split(text, ',') == pieces;
    assert Truthy(ctx.databases);
    var expected := seq(|names|, k requires 0 <= k < |names| => DatabaseSpec(names[k]));
    assert seq(|pieces|, k requires 0 <= k < |pieces| => DatabaseSpec(Strip(pieces[k]))) == expected;
  }

  /** Each name with its padding on either side. */
  function Padded(names: seq<string>, before: seq<string>, after: seq<string>): (r: seq<string>)
    requires |before| == |names| && |after| == |names|
    ensures |r| == |names|
    ensures forall k :: 0 <= k < |r| ==> r[k] == before[k] + names[k] + after[k]
  {
    seq(|names|, k requires 0 <= k < |names| => before[k] + names[k] + after[k])
  }

  lemma SpaceIsNotComma(s: string)
    requires AllSpace(s)
    ensures ',' !in s
  {
    assert !IsSpace(',');
  }

  /** `_get_users`: None unless `user` is truthy; otherwise exactly one user carrying the
      name, the password and `_get_databases`, with `host` set only when it is non-empty.
      Reading `context['password']` or `context['host']` raises when the key is missing. */
  function GetUsers(ctx: LaunchContext): (r: Outcome<Option<seq<UserSpec>>>)
    ensures !Truthy(ctx.user) ==> r == Done(None)
    ensures Truthy(ctx.user) ==> (r.Raised? <==> ctx.password.None? || ctx.host.None?)
    ensures r.Done? && r.value.Some? ==>
              && Truthy(ctx.user)
              && |r.value.value| == 1
              && r.value.value[0].name == ctx.user.value
              && r.value.value[0].password == ctx.password.value
              && r.value.value[0].databases == GetDatabases(ctx)
              && (r.value.value[0].host.Some? <==> ctx.host.value != "")
              && (r.value.value[0].host.Some? ==> r.value.value[0].host.value == ctx.host.value)
  {
    if !Truthy(ctx.user) then Done(None)
    else if ctx.password.None? || ctx.host.None? then Raised
    else
      var host := if ctx.host.value != "" then Some(ctx.host.value) else None;
      Done(Some([UserSpec(ctx.user.value, ctx.password.value, GetDatabases(ctx), host)]))
  }

  /** `_get_backup`: a backup reference exactly when `backup` is truthy. */
  function GetBackup(ctx: LaunchContext): (r: Option<BackupRef>)
    ensures r.Some? <==> Truthy(ctx.backup)
    ensures r.Some? ==> r.value.backupRef == ctx.backup.value
  {
    if Truthy(ctx.backup) then Some(BackupRef(ctx.backup.value)) else None
  }

  /** `_get_nics`: None for a missing or empty `network_id`; otherwise one NIC per network
      id, in order, each with an empty fixed IP. */
  function GetNics(ctx: LaunchContext): (r: Option<seq<Nic>>)
    ensures r.Some? <==> ctx.networkId.Some? && ctx.networkId.value != []
    ensures r.Some? ==> |r.value| == |ctx.networkId.value|
    ensures r.Some? ==> forall k :: 0 <= k < |r.value| ==>
              r.value[k].netId == ctx.networkId.value[k] && r.value[k].v4FixedIp == ""
  {
    match ctx.networkId
    case Some(ids) =>
      if ids != [] then Some(seq(|ids|, k requires 0 <= k < |ids| => Nic(ids[k], ""))) else None
    case None => None
  }

  /** The arguments of `api.trove.instance_create`. */
  datatype InstanceCreate = InstanceCreate(
    name: string, volume: int, flavor: string,
    databases: Option<seq<DatabaseSpec>>, users: Option<seq<UserSpec>>,
    restorePoint: Option<BackupRef>, nics: Option<seq<Nic>>)

  /** What `LaunchInstance.handle` returns, and the call it made, if any. */
  datatype LaunchResult = LaunchResult(ok: bool, issued: Option<InstanceCreate>)

  /** `LaunchInstance.handle`: builds the arguments and calls `instance_create`; any
      exception on the way, a missing context key included, makes it return False. */
  function Handle(ctx: LaunchContext, raises: InstanceCreate -> bool): (r: LaunchResult)
    ensures r.issued.Some? <==>
              ctx.name.Some? && ctx.volume.Some? && ctx.flavor.Some? && GetUsers(ctx).Done?
    ensures r.ok <==> r.issued.Some? && !raises(r.issued.value)
    ensures r.issued.Some? ==>
              && r.issued.value.name == ctx.name.value
              && r.issued.value.volume == ctx.volume.value
              && r.issued.value.flavor == ctx.flavor.value
              && r.issued.value.databases == GetDatabases(ctx)
              && r.issued.value.users == GetUsers(ctx).value
              && r.issued.value.restorePoint == GetBackup(ctx)
              && r.issued.value.nics == GetNics(ctx)
  {
    if ctx.name.None? || ctx.volume.None? || ctx.flavor.None? then LaunchResult(false, None)
    else match GetUsers(ctx)
      case Done(users) =>
        var c := InstanceCreate(ctx.name.value, ctx.volume.value, ctx.flavor.value,
                                GetDatabases(ctx), users, GetBackup(ctx), GetNics(ctx));
        LaunchResult(!raises(c), Some(c))
      case _ => LaunchResult(false, None)
  }

  // ---------------------------------------------------------------- network step

  /** `[n for n in networks if n != '']`: drops the empty ids and keeps the order. */
  function DropEmpty(posted: seq<string>): (r: seq<string>)
    ensures forall n :: n in r <==> n in posted && n != ""
    ensures IsSubsequence(r, posted)
  {
    var nonEmpty := (n: string) => n != "";
    FilterMembers(posted, nonEmpty);
    FilterSubsequence(posted, nonEmpty);
    Filter(posted, nonEmpty)
  }

  /** A posted list without empty ids is kept whole. */
  lemma DropEmptyKeepsIds(posted: seq<string>)
    requires "" !in posted
    ensures DropEmpty(posted) == posted
  {
    FilterKeepsAll(posted, (n: string) => n != "");
  }

  /** The launch workflow, holding the context its steps contribute to. */
  class LaunchInstance {
    var context: LaunchContext

    constructor (seed: LaunchContext)
      ensures context == seed
    {
      context := seed;
    }

    /** `SetNetwork.contribute`: when the step has data, the posted network ids without
        the empty ones become `network_id`, unless none remain. Nothing else changes. */
    method SetNetworkContribute(hasData: bool, posted: seq<string>)
      modifies this
      ensures hasData && DropEmpty(posted) != [] ==>
                context == old(context).(networkId := Some(DropEmpty(posted)))
      ensures !(hasData && DropEmpty(posted) != []) ==> context == old(context)
    {
      if hasData {
        var networks := DropEmpty(posted);
        if networks != [] {
          context := context.(networkId := Some(networks));
        }
      }
    }
  }

  /** After the network step has set `network_id`, the launch gets one NIC per chosen
      network, and no NIC for an empty id. */
  lemma ContributedNetworksBecomeNics(ctx: LaunchContext, posted: seq<string>)
    requires DropEmpty(posted) != []
    ensures var nics := GetNics(ctx.(networkId := Some(DropEmpty(posted))));
            && nics.Some?
            && (forall k :: 0 <= k < |nics.value| ==> nics.value[k].netId != "")
            && (forall k :: 0 <= k < |nics.value| ==> nics.value[k].netId in posted)
  {
    var ids := DropEmpty(posted);
    var nics := GetNics(ctx.(networkId := Some(ids)));
    forall k | 0 <= k < |nics.value|
      ensures nics.value[k].netId != "" && nics.value[k].netId in posted
    {
      assert nics.value[k].netId == ids[k];
      assert ids[k] in ids;
    }
  }

  // ---------------------------------------------------------------- database step

  /** The cleaned data of the "Initialize Databases" step. */
  datatype InitializeData = InitializeData(
    databases: Option<string>, user: Option<string>, password: Option<string>,
    host: Option<string>)

  const PasswordRequired := "You must specify a password if you create a user."
  const DatabaseRequired := "You must specify at least one database if you create a user."

  /** The errors `AddDatabasesAction.clean` records: a user without a password, and a user
      without databases, each put an error on that field; both can occur together. */
  function CleanErrors(cleaned: InitializeData): (r: map<string, seq<string>>)
    ensures "password" in r <==> Truthy(cleaned.user) && !Truthy(cleaned.password)
    ensures "databases" in r <==> Truthy(cleaned.user) && !Truthy(cleaned.databases)
    ensures forall f :: f in r ==> f == "password" || f == "databases"
    ensures "password" in r ==> r["password"] == [PasswordRequired]
    ensures "databases" in r ==> r["databases"] == [DatabaseRequired]
  {
    var pw: map<string, seq<string>> :=
      if Truthy(cleaned.user) && !Truthy(cleaned.password) then map["password" := [PasswordRequired]]
      else map[];
    if Truthy(cleaned.user) && !Truthy(cleaned.databases) then pw["databases" := [DatabaseRequired]]
    else pw
  }

  /** The "Initialize Databases" action, with the per-field errors its validation records. */
  class AddDatabasesAction {
    var errors: map<string, seq<string>>

    constructor ()
      ensures errors == map[]
    {
      errors := map[];
    }

    /** `AddDatabasesAction.clean`: records `CleanErrors` and returns the data unaltered. */
    method Clean(cleaned: InitializeData) returns (r: InitializeData)
      modifies this
      ensures r == cleaned
      ensures errors == old(errors) + CleanErrors(cleaned)
    {
      if Truthy(cleaned.user) {
        if !Truthy(cleaned.password) {
          errors := errors["password" := [PasswordRequired]];
        }
        if !Truthy(cleaned.databases) {
          errors := errors["databases" := [DatabaseRequired]];
        }
      }
      r := cleaned;
    }
  }

  // ---------------------------------------------------------------- choice lists

  /** A `(value, text)` pair of a choice field. */
  datatype Choice = Choice(value: string, text: string)

  datatype Backup = Backup(id: string, name: string, status: string)

  /** `[(b.id, b.name) for b in backups if b.status == 'COMPLETED']`. */
  function CompletedChoices(backups: seq<Backup>): (r: seq<Choice>)
    ensures |r| <= |backups|
  {
    if backups == [] then []
    else
      var b := backups[0];
      (if b.status == "COMPLETED" then [Choice(b.id, b.name)] else []) + CompletedChoices(backups[1..])
  }

  /** A choice is listed exactly when some completed backup has that id and name. */
  lemma {:induction false} CompletedChoicesMembers(backups: seq<Backup>, c: Choice)
    ensures c in CompletedChoices(backups) <==>
              exists b :: b in backups && b.status == "COMPLETED" && c == Choice(b.id, b.name)
  {
    if backups != [] {
      CompletedChoicesMembers(backups[1..], c);
      assert forall x :: x in backups <==> x == backups[0] || x in backups[1..];
    }
  }

  /** The completed backups of a concatenation are those of each part, in order. */
  lemma {:induction false} CompletedChoicesAppend(a: seq<Backup>, b: seq<Backup>)
    ensures CompletedChoices(a + b) == CompletedChoices(a) + CompletedChoices(b)
  {
    if a == [] {
      assert a + b == b;
    } else {
      var ab := a + b;
      assert ab[0] == a[0] && ab[1..] == a[1..] + b;
      CompletedChoicesAppend(a[1..], b);
      var head := if a[0].status == "COMPLETED" then [Choice(a[0].id, a[0].name)] else [];
      assert CompletedChoices(ab) == head + CompletedChoices(a[1..] + b);
      assert CompletedChoices(a) == head + CompletedChoices(a[1..]);
    }
  }

  /** `RestoreAction.populate_backup_choices`: a placeholder with an empty value first,
      which reads "Select backup" when completed backups follow and "No backups available"
      otherwise; then the completed backups, in order. A failed list gives the placeholder only. */
  function BackupChoices(fetched: Remote<seq<Backup>>): (r: seq<Choice>)
    ensures |r| >= 1 && r[0].value == ""
    ensures r[0].text == (if |r| > 1 then "Select backup" else "No backups available")
    ensures fetched.Failed? ==> r == [Choice("", "No backups available")]
    ensures fetched.Returned? ==> r[1..] == CompletedChoices(fetched.value)
  {
    var choices := if fetched.Returned? then CompletedChoices(fetched.value) else [];
    if choices != [] then [Choice("", "Select backup")] + choices
    else [Choice("", "No backups available")] + choices
  }

  datatype Flavor = Flavor(id: string, name: string)

  /** `[(f.id, "%s" % f.name) for f in flavors]`. */
  function FlavorPairs(flavors: seq<Flavor>): (r: seq<Choice>)
    ensures |r| == |flavors|
    ensures forall k :: 0 <= k < |r| ==> r[k] == Choice(flavors[k].id, flavors[k].name)
  {
    seq(|flavors|, k requires 0 <= k < |flavors| => Choice(flavors[k].id, flavors[k].name))
  }

  /** Python's `<=` on `(value, text)` tuples: by value, then by text. */
  predicate ChoiceLe(a: Choice, b: Choice)
  {
    (StrLe(a.value, b.value) && a.value != b.value) || (a.value == b.value && StrLe(a.text, b.text))
  }

  lemma ChoiceLeIsTotalPreorder()
    ensures TotalPreorder(ChoiceLe)
  {
    forall x, y ensures ChoiceLe(x, y) || ChoiceLe(y, x) {
      StrLeTotal(x.value, y.value);
      StrLeTotal(x.text, y.text);
    }
    forall x, y, z | ChoiceLe(x, y) && ChoiceLe(y, z) ensures ChoiceLe(x, z) {
      if x.value == y.value && y.value == z.value {
        StrLeTransitive(x.text, y.text, z.text);
      } else if x.value == y.value {
        assert ChoiceLe(y, z) && y.value != z.value;
      } else if y.value == z.value {
        assert ChoiceLe(x, y) && x.value != y.value;
      } else {
        StrLeTransitive(x.value, y.value, z.value);
        if x.value == z.value {
          StrLeAntisymmetric(x.value, y.value);
        }
      }
    }
  }

  /** `populate_flavor_choices` as written: `flavors()` swallows a failed `flavor_list`
      and returns None, so the comprehension iterating over it raises TypeError. */
  function FlavorChoicesAsWritten(fetched: Remote<seq<Flavor>>): (r: Outcome<seq<Choice>>)
    ensures r.Raised? <==> fetched.Failed?
    ensures r.Done? ==> SortedBy(r.value, ChoiceLe)
    ensures r.Done? ==> multiset(r.value) == multiset(FlavorPairs(fetched.value))
  {
    match fetched
    case Failed => Raised
    case Returned(flavors) => Done(FlavorChoices(fetched))
  }

  /** `populate_flavor_choices` with a failed list treated as empty, as the assignment
      `self._flavors = []` in `flavors()` intends: the `(id, name)` pairs sorted
      ascending, a permutation of the flavor list, and empty on failure. */
  function FlavorChoices(fetched: Remote<seq<Flavor>>): (r: seq<Choice>)
    ensures fetched.Failed? ==> r == []
    ensures SortedBy(r, ChoiceLe)
    ensures multiset(r) == multiset(FlavorPairs(if fetched.Returned? then fetched.value else []))
  {
    var pairs := FlavorPairs(if fetched.Returned? then fetched.value else []);
    ChoiceLeIsTotalPreorder();
    SortIsSorted(pairs, ChoiceLe);
    SortIsPermutation(pairs, ChoiceLe);
    InsertionSort(pairs, ChoiceLe)
  }
}
