/** The identity providers and protocols tables of the federation panel: their naive
    case-insensitive filters, the keyword arguments of the protocol edit link, and the
    object display of a row. */
module IdentityProvidersTables {
  import opened Wrappers
  import opened Text
  import opened Seqs

  /** A row of the identity providers table, an `IdentityProviderEntry`: the description is
      what the identity service returned, None included. */
  datatype IdpRow = IdpRow(id: string, description: Option<string>, protocols: string)

  /** A row of the protocols table. */
  datatype ProtocolRow = ProtocolRow(id: string, mappingId: string)

  // ---------------------------------------------------------------- identity provider filter

  /** The description as text, with None read as the empty string. */
  function DescriptionText(x: IdpRow): string
  {
    if x.description.Some? then x.description.value else ""
  }

  /** The intended test: the lower-cased query occurs in the lower-cased id, description
      or protocols. */
  predicate IdpMatches(filterString: string, x: IdpRow)
  {
    var q := Lower(filterString);
    Contains(q, Lower(x.id)) || Contains(q, Lower(DescriptionText(x)))
    || Contains(q, Lower(x.protocols))
  }

  /** The test of `IdentityProviderFilterAction.filter` on one row, with `or` evaluated
      left to right. `getattr(idp, 'description', '')` is None for a provider without a
      description, so `.lower()` raises once it is reached. */
  function IdpTestAsWritten(filterString: string, x: IdpRow): (r: Option<bool>)
    ensures r.None? <==> !Contains(Lower(filterString), Lower(x.id)) && x.description.None?
    ensures r.Some? ==> (r.value <==> IdpMatches(filterString, x))
  {
    var q := Lower(filterString);
    if Contains(q, Lower(x.id)) then Some(true)
    else match x.description
      case None => None
      case Some(d) => Some(Contains(q, Lower(d)) || Contains(q, Lower(x.protocols)))
  }

  /** `IdentityProviderFilterAction.filter` with a None description read as empty, as the
      `''` default of `getattr` intends: an order-preserving selection of the rows that
      match the query. */
  function IdentityProviderFilter(rows: seq<IdpRow>, filterString: string): (r: seq<IdpRow>)
    ensures IsSubsequence(r, rows)
    ensures forall x :: x in r <==> x in rows && IdpMatches(filterString, x)
  {
    var p := (x: IdpRow) => IdpMatches(filterString, x);
    FilterSubsequence(rows, p);
    FilterMembers(rows, p);
    Filter(rows, p)
  }

  /** `IdentityProviderFilterAction.filter` as written: it raises exactly when some row has a
      None description and an id that does not match; otherwise it is the intended filter. */
  function IdentityProviderFilterAsWritten(rows: seq<IdpRow>, filterString: string)
    : (r: Option<seq<IdpRow>>)
    ensures r.None? <==> exists k :: 0 <= k < |rows| && rows[k].description.None?
                                     && !Contains(Lower(filterString), Lower(rows[k].id))
    ensures r.Some? ==> r.value == IdentityProviderFilter(rows, filterString)
  {
    var test := (x: IdpRow) => IdpTestAsWritten(filterString, x);
    TryFilterRaises(rows, test);
    if TryFilter(rows, test).Some? then
      AsWrittenAgrees(rows, filterString);
      TryFilter(rows, test)
    else TryFilter(rows, test)
  }

  /** When no row raises, the comprehension as written keeps the rows the intended test keeps. */
  lemma AsWrittenAgrees(rows: seq<IdpRow>, filterString: string)
    requires TryFilter(rows, (x: IdpRow) => IdpTestAsWritten(filterString, x)).Some?
    ensures TryFilter(rows, (x: IdpRow) => IdpTestAsWritten(filterString, x))
            == Some(IdentityProviderFilter(rows, filterString))
  {
    var test := (x: IdpRow) => IdpTestAsWritten(filterString, x);
    TryFilterRaises(rows, test);
    TryFilterIsFilter(rows, test);
    forall k | 0 <= k < |rows|
      ensures Passes(test)(rows[k]) == IdpMatches(filterString, rows[k])
    {
      assert test(rows[k]).Some?;
    }
    FilterAgree(rows, Passes(test), (x: IdpRow) => IdpMatches(filterString, x));
  }

  /** The empty query keeps every row, and then the filter as written never raises. */
  lemma IdentityProviderFilterEmptyQuery(rows: seq<IdpRow>)
    ensures IdentityProviderFilter(rows, "") == rows
    ensures IdentityProviderFilterAsWritten(rows, "") == Some(rows)
  {
    forall k | 0 <= k < |rows| ensures IdpMatches("", rows[k]) {
      EmptyContained(Lower(rows[k].id));
    }
    FilterKeepsAll(rows, (x: IdpRow) => IdpMatches("", x));
  }

  /** Filtering is case-insensitive in the query. */
  lemma IdentityProviderFilterCaseInsensitive(rows: seq<IdpRow>, filterString: string)
    ensures IdentityProviderFilter(rows, Upper(filterString))
            == IdentityProviderFilter(rows, filterString)
    ensures IdentityProviderFilterAsWritten(rows, Upper(filterString))
            == IdentityProviderFilterAsWritten(rows, filterString)
  {
    LowerOfUpper(filterString);
    FilterAgree(rows, (x: IdpRow) => IdpMatches(Upper(filterString), x),
                (x: IdpRow) => IdpMatches(filterString, x));
    TryFilterAgree(rows, (x: IdpRow) => IdpTestAsWritten(Upper(filterString), x),
                   (x: IdpRow) => IdpTestAsWritten(filterString, x));
  }

  // ---------------------------------------------------------------- protocol filter

  /** The lower-cased query occurs in the lower-cased id or mapping id. */
  predicate ProtocolMatches(filterString: string, x: ProtocolRow)
  {
    Contains(Lower(filterString), Lower(x.id)) || Contains(Lower(filterString), Lower(x.mappingId))
  }

  /** `ProtocolFilterAction.filter`: an order-preserving selection of the matching rows. */
  function ProtocolFilter(rows: seq<ProtocolRow>, filterString: string): (r: seq<ProtocolRow>)
    ensures IsSubsequence(r, rows)
    ensures forall x :: x in r <==> x in rows && ProtocolMatches(filterString, x)
  {
    var p := (x: ProtocolRow) => ProtocolMatches(filterString, x);
    FilterSubsequence(rows, p);
    FilterMembers(rows, p);
    Filter(rows, p)
  }

  /** The empty query keeps every protocol. */
  lemma ProtocolFilterEmptyQuery(rows: seq<ProtocolRow>)
    ensures ProtocolFilter(rows, "") == rows
  {
    forall k | 0 <= k < |rows| ensures ProtocolMatches("", rows[k]) {
      EmptyContained(Lower(rows[k].id));
    }
    FilterKeepsAll(rows, (x: ProtocolRow) => ProtocolMatches("", x));
  }

  /** The protocol filter is case-insensitive in the query. */
  lemma ProtocolFilterCaseInsensitive(rows: seq<ProtocolRow>, filterString: string)
    ensures ProtocolFilter(rows, Upper(filterString)) == ProtocolFilter(rows, filterString)
  {
    LowerOfUpper(filterString);
    FilterAgree(rows, (x: ProtocolRow) => ProtocolMatches(Upper(filterString), x),
                (x: ProtocolRow) => ProtocolMatches(filterString, x));
  }

  // ---------------------------------------------------------------- links and display

  /** The keyword arguments of `EditProtocolLink.get_link_url`: a copy of the table's
      keyword arguments with `protocol` set to the row's id. The table's own dictionary
      is a value here, so it is left as it was. */
  function EditProtocolLinkKwargs(tableKwargs: map<string, string>, datumId: string)
    : (r: map<string, string>)
    ensures r.Keys == tableKwargs.Keys + {"protocol"}
    ensures r["protocol"] == datumId
    ensures forall k :: k in tableKwargs && k != "protocol" ==> r[k] == tableKwargs[k]
  {
    tableKwargs["protocol" := datumId]
  }

  /** `get_object_display` of both tables: the row's id when it has one, else None. */
  function ObjectDisplay(datumId: Option<string>): (r: Option<string>)
    ensures r.Some? <==> datumId.Some?
    ensures r.Some? ==> r.value == datumId.value
  {
    if datumId.Some? then Some(datumId.value) else None
  }
}
