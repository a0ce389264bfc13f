/** The mappings table of the federation panel and its naive case-insensitive filter. */
module MappingsTables {
  import opened Wrappers
  import opened Text
  import opened Seqs

  /** A `MappingEntry`: the rules are whatever the identity service returned for the
      mapping, a string or structured data. */
  datatype MappingRow = MappingRow(id: string, rules: Value)

  /** The row matches: the lower-cased query occurs in the lower-cased id, or in the
      lower-cased rules when they are a string. */
  predicate MappingMatches(filterString: string, x: MappingRow)
  {
    var q := Lower(filterString);
    Contains(q, Lower(x.id)) || (x.rules.Str? && Contains(q, Lower(x.rules.s)))
  }

  /** The test of `MappingFilterAction.filter` on one row. The `or` short-circuits, so the
      rules are looked at only when the id does not match; `.lower()` on rules that are
      not a string raises. */
  function MappingTest(filterString: string, x: MappingRow): (r: Option<bool>)
    ensures r.None? <==> !Contains(Lower(filterString), Lower(x.id)) && !x.rules.Str?
    ensures r.Some? ==> (r.value <==> MappingMatches(filterString, x))
  {
    var q := Lower(filterString);
    if Contains(q, Lower(x.id)) then Some(true)
    else match x.rules
      case Str(s) => Some(Contains(q, Lower(s)))
      case _ => None
  }

  /** `MappingFilterAction.filter`: it raises exactly when it reaches the rules of a row
      whose id does not match and whose rules are not a string; otherwise it keeps, in
      order, exactly the matching rows. */
  function MappingFilter(rows: seq<MappingRow>, filterString: string): (r: Option<seq<MappingRow>>)
    ensures r.None? <==> exists k :: 0 <= k < |rows| && !rows[k].rules.Str?
                                     && !Contains(Lower(filterString), Lower(rows[k].id))
    ensures r.Some? ==> IsSubsequence(r.value, rows)
    ensures r.Some? ==> forall x :: x in r.value <==> x in rows && MappingMatches(filterString, x)
  {
    var test := (x: MappingRow) => MappingTest(filterString, x);
    TryFilterRaises(rows, test);
    if TryFilter(rows, test).Some? then
      KeptMappings(rows, filterString);
      TryFilter(rows, test)
    else TryFilter(rows, test)
  }

  lemma KeptMappings(rows: seq<MappingRow>, filterString: string)
    requires TryFilter(rows, (x: MappingRow) => MappingTest(filterString, x)).Some?
    ensures var r := TryFilter(rows, (x: MappingRow) => MappingTest(filterString, x)).value;
            && IsSubsequence(r, rows)
            && forall x :: x in r <==> x in rows && MappingMatches(filterString, x)
  {
    var test := (x: MappingRow) => MappingTest(filterString, x);
    TryFilterRaises(rows, test);
    TryFilterIsFilter(rows, test);
    FilterSubsequence(rows, Passes(test));
    FilterMembers(rows, Passes(test));
    forall x | x in rows ensures Passes(test)(x) == MappingMatches(filterString, x) {
      var k :| 0 <= k < |rows| && rows[k] == x;
      assert test(rows[k]).Some?;
    }
  }

  /** The rules are reached only when the id does not match: a row whose id matches is kept
      whatever its rules are. */
  lemma MappingIdMatchSkipsRules(filterString: string, x: MappingRow, otherRules: Value)
    requires Contains(Lower(filterString), Lower(x.id))
    ensures MappingTest(filterString, x) == Some(true)
    ensures MappingTest(filterString, x.(rules := otherRules)) == Some(true)
  {
  }

  /** When every id matches, the filter keeps every row and never looks at the rules. */
  lemma MappingFilterAllIdsMatch(rows: seq<MappingRow>, filterString: string)
    requires forall k :: 0 <= k < |rows| ==> Contains(Lower(filterString), Lower(rows[k].id))
    ensures MappingFilter(rows, filterString) == Some(rows)
  {
    TryFilterKeepsAll(rows, (x: MappingRow) => MappingTest(filterString, x));
  }

  /** The empty query keeps every mapping. */
  lemma MappingFilterEmptyQuery(rows: seq<MappingRow>)
    ensures MappingFilter(rows, "") == Some(rows)
  {
    forall k | 0 <= k < |rows| ensures Contains(Lower(""), Lower(rows[k].id)) {
      EmptyContained(Lower(rows[k].id));
    }
    MappingFilterAllIdsMatch(rows, "");
  }

  /** The mapping filter is case-insensitive in the query. */
  lemma MappingFilterCaseInsensitive(rows: seq<MappingRow>, filterString: string)
    ensures MappingFilter(rows, Upper(filterString)) == MappingFilter(rows, filterString)
  {
    LowerOfUpper(filterString);
    TryFilterAgree(rows, (x: MappingRow) => MappingTest(Upper(filterString), x),
                   (x: MappingRow) => MappingTest(filterString, x));
  }
}
