/** The views of the identity providers panel: the table entries built from the
    identity providers and their protocols, and the initial values of the protocol forms. */
module IdentityProvidersViews {
  import opened Wrappers
  import opened Text

  /** An identity provider as the federation client lists it. */
  datatype Idp = Idp(id: string, description: Option<string>)

  // ---------------------------------------------------------------- protocol string

  /** The protocol column: each protocol id followed by one space, in list order. */
  function ProtocolsText(ids: seq<string>): string
  {
    if ids == [] then "" else ids[0] + " " + ProtocolsText(ids[1..])
  }

  /** The sum of the lengths of `ids`. */
  function TotalLength(ids: seq<string>): nat
  {
    if ids == [] then 0 else |ids[0]| + TotalLength(ids[1..])
  }

  /** Appending one more protocol appends its id and a space: the step of the loop. */
  lemma {:induction false} ProtocolsTextAppend(ids: seq<string>, p: string)
    ensures ProtocolsText(ids + [p]) == ProtocolsText(ids) + p + " "
  {
    if ids != [] {
      assert (ids + [p])[0] == ids[0] && (ids + [p])[1..] == ids[1..] + [p];
      ProtocolsTextAppend(ids[1..], p);
    } else {
      assert ids + [p] == [p];
    }
  }

  /** The string is as long as the ids with one space each. */
  lemma {:induction false} ProtocolsTextLength(ids: seq<string>)
    ensures |ProtocolsText(ids)| == TotalLength(ids) + |ids|
  {
    if ids != [] {
      ProtocolsTextLength(ids[1..]);
    }
  }

  /** No protocols give the empty string; otherwise the string ends in a space. */
  lemma ProtocolsTextEnds(ids: seq<string>)
    ensures ids == [] <==> ProtocolsText(ids) == ""
    ensures ids != [] ==> ProtocolsText(ids)[|ProtocolsText(ids)| - 1] == ' '
  {
    if ids != [] {
      ProtocolsTextLastSpace(ids);
    }
  }

  lemma {:induction false} ProtocolsTextLastSpace(ids: seq<string>)
    requires ids != []
    ensures |ProtocolsText(ids)| > 0 && ProtocolsText(ids)[|ProtocolsText(ids)| - 1] == ' '
  {
    if |ids| > 1 {
      ProtocolsTextLastSpace(ids[1..]);
    }
  }

  /** The string is the ids joined by spaces, with a trailing empty piece. */
  lemma {:induction false} ProtocolsTextIsJoin(ids: seq<string>)
    ensures ProtocolsText(ids) == Join(ids + [""], ' ')
  {
    if ids != [] {
      ProtocolsTextIsJoin(ids[1..]);
      var parts := ids + [""];
      assert parts[0] == ids[0] && parts[1..] == ids[1..] + [""];
    }
  }

  /** Splitting the column on spaces recovers the protocol ids, followed by the empty piece
      after the last space, when no id contains a space. */
  lemma ProtocolsTextSplit(ids: seq<string>)
    requires forall k :: 0 <= k < |ids| ==> ' ' !in ids[k]
    ensures Split(ProtocolsText(ids), ' ') == ids + [""]
  {
    ProtocolsTextIsJoin(ids);
    var parts := ids + [""];
    assert forall k :: 0 <= k < |parts| ==> ' ' !in parts[k] by {
      forall k | 0 <= k < |parts| ensures ' ' !in parts[k] {
        if k < |ids| {
          assert parts[k] == ids[k];
        }
      }
    }
    SplitJoin(parts, ' ');
  }

  // ---------------------------------------------------------------- table entries

  /** `IdentityProviderEntry`: the id and the description of a provider, and the protocol
      column built by appending to `protocols` once per protocol. */
  class IdentityProviderEntry {
    var id: string
    var description: Option<string>
    var protocols: string

    constructor (providerId: string, desc: Option<string>, protocolIds: seq<string>)
      ensures id == providerId && description == desc
      ensures protocols == ProtocolsText(protocolIds)
    {
      id := providerId;
      description := desc;
      protocols := "";
      new;
      var i := 0;
      while i < |protocolIds|
        invariant 0 <= i <= |protocolIds|
        invariant id == providerId && description == desc
        invariant protocols == ProtocolsText(protocolIds[..i])
      {
        ProtocolsTextAppend(protocolIds[..i], protocolIds[i]);
        assert protocolIds[..i + 1] == protocolIds[..i] + [protocolIds[i]];
        protocols := protocols + protocolIds[i] + " ";
        i := i + 1;
      }
      assert protocolIds[..i] == protocolIds;
    }
  }

  /** `IndexView.get_data`: one entry per identity provider, in order, or none when the
      provider list fails. Listing a provider's protocols happens outside the `try`, so a
      failure there is raised out of the view. */
  method IndexGetData(fetched: Remote<seq<Idp>>, listProtocols: string -> Remote<seq<string>>)
    returns (out: Outcome<seq<IdentityProviderEntry>>)
    ensures fetched.Failed? ==> out == Done([])
    ensures fetched.Returned? ==>
              (out.Raised? <==> exists k :: 0 <= k < |fetched.value| &&
                                            listProtocols(fetched.value[k].id).Failed?)
    ensures !out.Redirected?
    ensures out.Done? && fetched.Returned? ==>
              var idps := fetched.value;
              && |out.value| == |idps|
              && forall k :: 0 <= k < |idps| ==>
                   && out.value[k].id == idps[k].id
                   && out.value[k].description == idps[k].description
                   && out.value[k].protocols == ProtocolsText(listProtocols(idps[k].id).value)
  {
    if fetched.Failed? {
      return Done([]);
    }
    var idps := fetched.value;
    var entries: seq<IdentityProviderEntry> := [];
    var i := 0;
    while i < |idps|
      invariant 0 <= i <= |idps|
      invariant |entries| == i
      invariant forall k :: 0 <= k < i ==> listProtocols(idps[k].id).Returned?
      invariant forall k :: 0 <= k < i ==>
                  && entries[k].id == idps[k].id
                  && entries[k].description == idps[k].description
                  && entries[k].protocols == ProtocolsText(listProtocols(idps[k].id).value)
    {
      var listed := listProtocols(idps[i].id);
      if listed.Failed? {
        return Raised;
      }
      var entry := new IdentityProviderEntry(idps[i].id, idps[i].description, listed.value);
      entries := entries + [entry];
      i := i + 1;
    }
    out := Done(entries);
  }

  // ---------------------------------------------------------------- protocol form initials

  /** The initial values of the add and update protocol forms. */
  datatype ProtocolInitial = ProtocolInitial(id: string, protocol: Option<string>, mappingId: string)

  /** `AddProtocolView.get_initial`: empty protocol and mapping for the fetched provider; a
      failed fetch is handled with a redirect to the protocol list. */
  function AddProtocolInitial(idp: Remote<Idp>): (r: Outcome<ProtocolInitial>)
    ensures idp.Failed? <==> r.Redirected?
    ensures r.Done? ==> r.value == ProtocolInitial(idp.value.id, Some(""), "")
  {
    if idp.Failed? then Redirected else Done(ProtocolInitial(idp.value.id, Some(""), ""))
  }

  /** `UpdateProtocolView.get_initial`: the protocol from the URL, and its mapping fetched
      only when that protocol is truthy, otherwise `""`. The mapping fetch is not guarded,
      so its failure is raised out of the view. */
  function UpdateProtocolInitial(idp: Remote<Idp>, protocol: Option<string>,
                                 getMapping: (string, string) -> Remote<string>)
    : (r: Outcome<ProtocolInitial>)
    ensures idp.Failed? <==> r.Redirected?
    ensures r.Raised? <==> idp.Returned? && Truthy(protocol)
                           && getMapping(idp.value.id, protocol.value).Failed?
    ensures r.Done? ==> r.value.id == idp.value.id && r.value.protocol == protocol
    ensures r.Done? && !Truthy(protocol) ==> r.value.mappingId == ""
    ensures r.Done? && Truthy(protocol) ==>
              r.value.mappingId == getMapping(idp.value.id, protocol.value).value
  {
    if idp.Failed? then Redirected
    else if !Truthy(protocol) then Done(ProtocolInitial(idp.value.id, protocol, ""))
    else match getMapping(idp.value.id, protocol.value)
      case Failed => Raised
      case Returned(m) => Done(ProtocolInitial(idp.value.id, protocol, m))
  }
}
