/** The workflows of the identity panel's VO role administration: the validation of the VO
    name and VO role fields, the role create and update handlers with their status
    messages, and the membership steps that contribute `role_users`. */
module VoAdminWorkflows {
  import opened Wrappers
  import opened Keystone

  // ---------------------------------------------------------------- name pattern

  /** A character of the class `[\w\.\- ]`, with `\w` the ASCII word characters of a
      pattern compiled without `re.UNICODE`. A newline is not one of them. */
  predicate IsNameChar(c: char)
  {
    ('a' <= c <= 'z') || ('A' <= c <= 'Z') || ('0' <= c <= '9')
    || c == '_' || c == '.' || c == '-' || c == ' '
  }

  predicate AllNameChars(s: string)
  {
    forall k :: 0 <= k < |s| ==> IsNameChar(s[k])
  }

  /** How far the greedy `[\w\.\- ]+` runs from the start of `s`. */
  function NameCharRun(s: string): (n: nat)
    ensures n <= |s|
    ensures forall k :: 0 <= k < n ==> IsNameChar(s[k])
    ensures n < |s| ==> !IsNameChar(s[n])
  {
    if s == [] || !IsNameChar(s[0]) then 0 else 1 + NameCharRun(s[1..])
  }

  /** `r'^[\w\.\- ]+$'` as Python's regex engine decides it: the run is non-empty and `$`
      holds where it stops, which is at the end of the string or just before a newline
      that ends it. A shorter run never helps, since the class holds no newline. */
  predicate MatchesAsWritten(s: string)
  {
    var n := NameCharRun(s);
    n >= 1 && (n == |s| || (n == |s| - 1 && s[n] == '\n'))
  }

  /** The same pattern anchored with `\Z`, which holds only at the end of the string. */
  predicate MatchesAnchored(s: string)
  {
    var n := NameCharRun(s);
    n >= 1 && n == |s|
  }

  /** The anchored pattern accepts exactly the non-empty strings of name characters. */
  lemma MatchesAnchoredIff(s: string)
    ensures MatchesAnchored(s) <==> s != [] && AllNameChars(s)
  {
  }

  /** The pattern as written accepts those strings and, besides, each of them followed by
      one newline. */
  lemma MatchesAsWrittenIff(s: string)
    ensures MatchesAsWritten(s) <==>
              MatchesAnchored(s)
              || (|s| >= 2 && s[|s| - 1] == '\n' && MatchesAnchored(s[..|s| - 1]))
  {
    var n := NameCharRun(s);
    if |s| >= 2 && s[|s| - 1] == '\n' {
      var t := s[..|s| - 1];
      NameCharRunPrefix(s, |s| - 1);
      if MatchesAnchored(t) {
        assert NameCharRun(s) == |s| - 1;
      }
      if MatchesAsWritten(s) && !MatchesAnchored(s) {
        assert n == |s| - 1;
        assert NameCharRun(t) == n;
      }
    }
  }

  /** Cutting `s` at its end or before a character outside the class leaves the run from
      the start unchanged. */
  lemma {:induction false} NameCharRunPrefix(s: string, m: nat)
    requires m <= |s|
    requires m < |s| ==> !IsNameChar(s[m])
    ensures NameCharRun(s[..m]) == NameCharRun(s)
  {
    if m > 0 && IsNameChar(s[0]) {
      assert s[..m][1..] == s[1..][..m - 1];
      NameCharRunPrefix(s[1..], m - 1);
    }
  }

  /** A string of name characters followed by one newline. */
  predicate NameWithNewline(s: string)
  {
    |s| >= 2 && s[|s| - 1] == '\n' && AllNameChars(s[..|s| - 1])
  }

  /** The pattern as written accepts the non-empty strings of name characters and those
      followed by one newline, and nothing else. */
  lemma AsWrittenAccepts(s: string)
    ensures MatchesAsWritten(s) <==> (s != [] && AllNameChars(s)) || NameWithNewline(s)
  {
    MatchesAsWrittenIff(s);
    MatchesAnchoredIff(s);
    if |s| >= 2 {
      MatchesAnchoredIff(s[..|s| - 1]);
    }
  }

  /** A VO name with a trailing newline passes the pattern as written, and so the field,
      although a newline is not among the characters the field allows; the anchored
      pattern rejects it. */
  lemma TrailingNewlineAccepted()
    ensures MatchesAsWritten("vo\n")
    ensures !AllNameChars("vo\n") && !MatchesAnchored("vo\n")
    ensures NameErrors("vo\n") == [] && NameErrorsAnchored("vo\n") == [Invalid]
  {
    assert !IsNameChar("vo\n"[2]);
    assert NameCharRun("vo\n"[2..]) == 0;
    assert "vo\n"[1..][1..] == "vo\n"[2..];
    assert NameCharRun("vo\n") == 2;
  }

  // ---------------------------------------------------------------- field validation

  /** The errors a form field reports: `required`, `max_length` and `invalid`. */
  datatype FieldError = Required | MaxLength | Invalid

  /** A required `RegexField` with an optional maximum length, whose pattern decides
      `matches`: an empty value stops at `required`; otherwise the length validator and
      the pattern validator each report their error. */
  function RegexFieldErrors(s: string, maxLength: Option<nat>, matches: string -> bool)
    : (r: seq<FieldError>)
    ensures s == [] <==> r == [Required]
    ensures MaxLength in r <==> maxLength.Some? && |s| > maxLength.value
    ensures Invalid in r <==> s != [] && !matches(s)
    ensures r == [] <==> s != [] && matches(s) && (maxLength.Some? ==> |s| <= maxLength.value)
  {
    if s == [] then [Required]
    else
      var tooLong: seq<FieldError> := if maxLength.Some? && |s| > maxLength.value then [MaxLength] else [];
      var invalid: seq<FieldError> := if !matches(s) then [Invalid] else [];
      assert Required !in tooLong + invalid;
      tooLong + invalid
  }

  /** The `name` field: at most 255 characters. */
  const NameMaxLength: nat := 255

  /** `CreateRoleInfoAction.name` as written: a VO name is accepted exactly when it is at
      most 255 characters long and is a non-empty run of letters, digits, `_`, `.`, `-` and
      spaces, possibly followed by one newline. */
  function NameErrors(s: string): (r: seq<FieldError>)
    ensures r == [] <==> |s| <= 255 && ((s != [] && AllNameChars(s)) || NameWithNewline(s))
    ensures MaxLength in r <==> |s| > 255
    ensures Invalid in r <==> s != [] && !AllNameChars(s) && !NameWithNewline(s)
  {
    AsWrittenAccepts(s);
    RegexFieldErrors(s, Some(NameMaxLength), MatchesAsWritten)
  }

  /** `CreateRoleInfoAction.vo_role` as written: required and of the same characters,
      possibly followed by one newline, of any length. */
  function VoRoleErrors(s: string): (r: seq<FieldError>)
    ensures r == [] <==> (s != [] && AllNameChars(s)) || NameWithNewline(s)
    ensures MaxLength !in r
  {
    AsWrittenAccepts(s);
    RegexFieldErrors(s, None, MatchesAsWritten)
  }

  /** The `name` field with its pattern anchored by `\Z`: a VO name is accepted exactly
      when it is non-empty, at most 255 characters long, and made of name characters. */
  function NameErrorsAnchored(s: string): (r: seq<FieldError>)
    ensures r == [] <==> s != [] && |s| <= 255 && AllNameChars(s)
    ensures MaxLength in r <==> |s| > 255
    ensures Invalid in r <==> s != [] && !AllNameChars(s)
  {
    MatchesAnchoredIff(s);
    RegexFieldErrors(s, Some(NameMaxLength), MatchesAnchored)
  }

  /** The `vo_role` field with its pattern anchored by `\Z`. */
  function VoRoleErrorsAnchored(s: string): (r: seq<FieldError>)
    ensures r == [] <==> s != [] && AllNameChars(s)
    ensures MaxLength !in r
  {
    MatchesAnchoredIff(s);
    RegexFieldErrors(s, None, MatchesAnchored)
  }

  // ---------------------------------------------------------------- role workflows

  /** The context of the create and update role workflows, as their one step contributes
      it. The create step has no `role_id` field, so it contributes None. */
  datatype RoleData = RoleData(
    roleId: Option<string>, name: string, voRole: string, description: string,
    enabled: bool, pin: string, autoJoin: bool)

  /** `CreateRoleInfoAction.clean` and `UpdateRoleInfoAction.clean`: the cleaned data,
      unaltered. */
  function CleanRoleInfo(cleaned: RoleData): (r: RoleData)
    ensures r == cleaned
  {
    cleaned
  }

  /** The remote calls of the role handlers, with the keyword arguments they pass. */
  datatype RoleCall =
    | VoRoleCreate(voName: string, voRoleName: string, pin: string, autoJoin: bool,
                   description: string, enabled: bool)
    | VoRoleUpdate(voRoleId: Option<string>, voName: string, voRoleName: string, pin: string,
                   autoJoin: bool, description: string, enabled: bool, voIsDomain: bool)

  /** The call `CreateRole.handle` makes with the workflow data. */
  function CreateCall(data: RoleData): RoleCall
  {
    VoRoleCreate(data.name, data.voRole, data.pin, data.autoJoin, data.description, data.enabled)
  }

  /** The call `UpdateRole.handle` makes: the same fields, the role id, and never a domain. */
  function UpdateCall(data: RoleData): RoleCall
  {
    VoRoleUpdate(data.roleId, data.name, data.voRole, data.pin, data.autoJoin,
                 data.description, data.enabled, false)
  }

  /** The workflow data a call carries, read back from its arguments. */
  function CallData(c: RoleCall): RoleData
  {
    match c
    case VoRoleCreate(n, r, p, a, d, e) => RoleData(None, n, r, d, e, p, a)
    case VoRoleUpdate(i, n, r, p, a, d, e, _) => RoleData(i, n, r, d, e, p, a)
  }

  /** Creating forwards every field of the data but the role id, each under its own name. */
  lemma CreateCallForwardsData(data: RoleData)
    ensures CreateCall(data).VoRoleCreate?
    ensures CallData(CreateCall(data)) == data.(roleId := None)
  {
  }

  /** Updating forwards every field of the data, each under its own name, and always passes
      `vo_is_domain=False`. */
  lemma UpdateCallForwardsData(data: RoleData)
    ensures UpdateCall(data).VoRoleUpdate? && !UpdateCall(data).voIsDomain
    ensures CallData(UpdateCall(data)) == data
  {
  }

  /** The create and update role workflows: `handle` stores what the remote call returned
      in `roleObject`, the workflow's `self.object`. */
  class RoleWorkflow {
    var roleObject: Option<VoRole>

    constructor ()
      ensures roleObject == None
    {
      roleObject := None;
    }

    /** `CreateRole.handle`: True and the created role stored when `vo_role_create` returns;
        False, with `roleObject` as it was, when it raises. */
    method HandleCreate(data: RoleData, remote: RoleCall -> Remote<VoRole>) returns (ok: bool)
      modifies this
      ensures ok <==> remote(CreateCall(data)).Returned?
      ensures ok ==> roleObject == Some(remote(CreateCall(data)).value)
      ensures !ok ==> roleObject == old(roleObject)
    {
      var answer := remote(CreateCall(data));
      if answer.Failed? {
        return false;
      }
      roleObject := Some(answer.value);
      ok := true;
    }

    /** `UpdateRole.handle`: the same, with `vo_role_update`. */
    method HandleUpdate(data: RoleData, remote: RoleCall -> Remote<VoRole>) returns (ok: bool)
      modifies this
      ensures ok <==> remote(UpdateCall(data)).Returned?
      ensures ok ==> roleObject == Some(remote(UpdateCall(data)).value)
      ensures !ok ==> roleObject == old(roleObject)
    {
      var answer := remote(UpdateCall(data));
      if answer.Failed? {
        return false;
      }
      roleObject := Some(answer.value);
      ok := true;
    }
  }

  // ---------------------------------------------------------------- status messages

  /** Python's `message % arg` with one string argument, for messages using the `%s` and
      `%%` conversions: None when the formatting raises, because no `%s` consumes the
      argument, a second `%s` finds none left, or a `%` starts another conversion. */
  function Percent(message: string, arg: string): Option<string>
  {
    PercentFrom(message, arg, false)
  }

  /** The formatting of the rest of a message; `used` says whether the argument is taken. */
  function PercentFrom(m: string, arg: string, used: bool): Option<string>
    decreases |m|
  {
    if m == [] then (if used then Some([]) else None)
    else if m[0] != '%' then Prepend([m[0]], PercentFrom(m[1..], arg, used))
    else if |m| == 1 then None
    else if m[1] == '%' then Prepend("%", PercentFrom(m[2..], arg, used))
    else if m[1] == 's' && !used then Prepend(arg, PercentFrom(m[2..], arg, true))
    else None
  }

  function Prepend(p: string, r: Option<string>): Option<string>
  {
    if r.Some? then Some(p + r.value) else None
  }

  /** Text without a `%` is copied through, before whatever the rest formats to. */
  lemma {:induction false} PercentFromText(t: string, rest: string, arg: string, used: bool)
    requires '%' !in t
    ensures PercentFrom(t + rest, arg, used) == Prepend(t, PercentFrom(rest, arg, used))
  {
    if t == [] {
      assert t + rest == rest;
      var r := PercentFrom(rest, arg, used);
      if r.Some? {
        assert t + r.value == r.value;
      }
    } else {
      var m := t + rest;
      assert t[0] in t;
      assert m[0] == t[0] && m[1..] == t[1..] + rest;
      assert '%' !in t[1..] by {
        assert t == [t[0]] + t[1..];
      }
      PercentFromText(t[1..], rest, arg, used);
      assert PercentFrom(m, arg, used) == Prepend([t[0]], PercentFrom(m[1..], arg, used));
      var r := PercentFrom(rest, arg, used);
      if r.Some? {
        assert [t[0]] + (t[1..] + r.value) == t + r.value;
      }
    }
  }

  /** A message with one `%s` and no other `%` becomes the text before it, the argument
      and the text after it, whatever the argument holds, `%` included. */
  lemma PercentSingle(before: string, after: string, arg: string)
    requires '%' !in before && '%' !in after
    ensures Percent(before + "%s" + after, arg) == Some(before + arg + after)
  {
    var tail := "%s" + after;
    assert before + "%s" + after == before + tail;
    PercentFromText(before, tail, arg, false);
    assert tail[0] == '%' && tail[1] == 's' && tail[2..] == after;
    assert PercentFrom(tail, arg, false) == Prepend(arg, PercentFrom(after, arg, true));
    PercentFromText(after, [], arg, true);
    assert after + [] == after;
    assert PercentFrom(after, arg, true) == Some(after);
    assert before + (arg + after) == before + arg + after;
  }

  /** The messages of the role workflows, each with the role's name in place of `%s`. */
  const CreateSuccess := "Created new VO role \"" + "%s" + "\"."
  const CreateFailure := "Unable to create VO role \"" + "%s" + "\"."
  const UpdateSuccess := "Modified VO role \"" + "%s" + "\"."
  const UpdateFailure := "Unable to modify VO role \"" + "%s" + "\"."

  /** `CreateRole.format_status_message` and `UpdateRole.format_status_message`:
      `message % self.context['name']`. */
  function FormatStatusMessage(message: string, data: RoleData): Option<string>
  {
    Percent(message, data.name)
  }

  /** The create messages name the role between their quotes, the name inserted literally. */
  lemma CreateMessagesName(data: RoleData)
    ensures FormatStatusMessage(CreateSuccess, data)
            == Some("Created new VO role \"" + data.name + "\".")
    ensures FormatStatusMessage(CreateFailure, data)
            == Some("Unable to create VO role \"" + data.name + "\".")
  {
    PercentSingle("Created new VO role \"", "\".", data.name);
    PercentSingle("Unable to create VO role \"", "\".", data.name);
  }

  /** The update messages likewise. */
  lemma UpdateMessagesName(data: RoleData)
    ensures FormatStatusMessage(UpdateSuccess, data)
            == Some("Modified VO role \"" + data.name + "\".")
    ensures FormatStatusMessage(UpdateFailure, data)
            == Some("Unable to modify VO role \"" + data.name + "\".")
  {
    PercentSingle("Modified VO role \"", "\".", data.name);
    PercentSingle("Unable to modify VO role \"", "\".", data.name);
  }

  /** The name can be read back from a formatted message: different roles' names give
      different messages. */
  lemma StatusMessageNamesRole(before: string, after: string, d1: RoleData, d2: RoleData)
    requires '%' !in before && '%' !in after
    requires FormatStatusMessage(before + "%s" + after, d1)
             == FormatStatusMessage(before + "%s" + after, d2)
    ensures d1.name == d2.name
  {
    PercentSingle(before, after, d1.name);
    PercentSingle(before, after, d2.name);
    var m1 := before + d1.name + after;
    var m2 := before + d2.name + after;
    assert m1 == m2;
    assert |d1.name| == |d2.name|;
    assert d1.name == m1[|before|..|before| + |d1.name|];
    assert d2.name == m2[|before|..|before| + |d2.name|];
  }

  // ---------------------------------------------------------------- membership steps

  /** The context of the add-user and move-user workflows, which `contribute` updates in
      place. */
  class MembershipWorkflow {
    var context: map<string, Value>

    constructor (initial: map<string, Value>)
      ensures context == initial
    {
      context := initial;
    }

    /** `AddUserStep.contribute` and `MoveUserStep.contribute`: with non-empty `data`,
        `role_users` becomes the member field's value, or `[]` when the field is absent;
        every other key keeps its value. Empty `data` leaves the context as it was.
        `memberField` is the step's `get_member_field_name('member')`. */
    method Contribute(data: map<string, Value>, memberField: string)
      modifies this
      ensures data == map[] ==> context == old(context)
      ensures data != map[] ==>
                context == old(context)["role_users" :=
                             if memberField in data then data[memberField] else List([])]
    {
      if data != map[] {
        var users := if memberField in data then data[memberField] else List([]);
        context := context["role_users" := users];
      }
    }

    /** `AddUser.handle` and `MoveUser.handle`: True, and nothing changes. */
    method Handle() returns (ok: bool)
      ensures ok
    {
      ok := true;
    }
  }
}
