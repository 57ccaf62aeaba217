/** The SOQL query builder (`QueryConstructor`): a SELECT list without the
    compound fields, then `FROM <object>`, then an optional WHERE section made
    of a `LastModifiedDate` range and one `IN (...)` filter per condition. */
module Query {
  import opened Text
  import opened Calendar

  /** One entry `field: values` of the conditions mapping. */
  datatype Condition = Condition(field: string, values: seq<string>)

  /** The constructor's arguments. The conditions mapping is its entries in
      insertion order; a missing mapping and an empty one are both `[]`, as
      the builder only tests the mapping for truth. A bound is `None` when it
      is absent. */
  datatype QuerySpec = QuerySpec(apiName: string, fieldNames: seq<string>,
                                 conditions: seq<Condition>,
                                 startDate: Option<Instant>, endDate: Option<Instant>)

  /** Fields whose values are structures a SELECT list cannot name. */
  const CompoundFields: set<string> := {"BillingAddress", "ShippingAddress", "Geolocation"}

  // ---------------------------------------------------------------------
  // SELECT list

  /** The field names kept in the SELECT list, in their original order. */
  function SelectableFields(fields: seq<string>): (r: seq<string>)
    ensures |r| <= |fields|
    ensures forall f :: f in r <==> f in fields && f !in CompoundFields
  {
    if fields == [] then []
    else
      var rest := SelectableFields(fields[1..]);
      assert fields == [fields[0]] + fields[1..];
      if fields[0] in CompoundFields then rest else [fields[0]] + rest
  }

  /** Filtering distributes over concatenation; with the single-field case
      this says the kept fields keep their relative order. */
  lemma {:induction false} SelectableFieldsAppend(a: seq<string>, b: seq<string>)
    ensures SelectableFields(a + b) == SelectableFields(a) + SelectableFields(b)
  {
    if a != [] {
      assert (a + b)[1..] == a[1..] + b;
      SelectableFieldsAppend(a[1..], b);
    } else {
      assert a + b == b;
    }
  }

  /** Every non-compound field is kept as often as it occurs (duplicates
      included); no compound field is kept. */
  lemma {:induction false} SelectableFieldsCount(fields: seq<string>, f: string)
    ensures multiset(SelectableFields(fields))[f]
         == if f in CompoundFields then 0 else multiset(fields)[f]
  {
    if fields != [] {
      SelectableFieldsCount(fields[1..], f);
      assert fields == [fields[0]] + fields[1..];
    }
  }

  /** A list without compound fields is selected unchanged. */
  lemma {:induction false} SelectableFieldsKeepsPlainLists(fields: seq<string>)
    requires forall i :: 0 <= i < |fields| ==> fields[i] !in CompoundFields
    ensures SelectableFields(fields) == fields
  {
    if fields != [] {
      SelectableFieldsKeepsPlainLists(fields[1..]);
    }
  }

  /** `construct_fields`. */
  function ConstructFields(fields: seq<string>): (r: string)
    ensures |r| >= 7 && r[..7] == "SELECT "
    ensures r == "SELECT " <==> SelectableFields(fields) == [] || SelectableFields(fields) == [""]
  {
    var kept := SelectableFields(fields);
    assert |kept| > 1 ==> |Join(", ", kept)| >= 2;
    "SELECT " + Join(", ", kept)
  }

  // ---------------------------------------------------------------------
  // WHERE clauses

  predicate HasTimeRange(q: QuerySpec)
  {
    q.startDate.Some? && q.endDate.Some?
  }

  /** The bounds that are rendered can be rendered: `%Y` needs a four-digit year. */
  predicate Renderable(q: QuerySpec)
  {
    HasTimeRange(q) ==> Formattable(q.startDate.value) && Formattable(q.endDate.value)
  }

  lemma ClauseLayout(f1: string, f2: string)
    requires |f1| == 24 && |f2| == 24
    ensures var c := "LastModifiedDate >= '" + f1 + "' AND LastModifiedDate <= '" + f2 + "'";
      && |c| == 97
      && c[..21] == "LastModifiedDate >= '" && c[21..45] == f1
      && c[45..72] == "' AND LastModifiedDate <= '" && c[72..96] == f2 && c[96..] == "'"
  {
    var c := "LastModifiedDate >= '" + f1 + "' AND LastModifiedDate <= '" + f2 + "'";
    var c2 := "' AND LastModifiedDate <= '" + f2 + "'";
    assert c == "LastModifiedDate >= '" + f1 + c2;
    assert c[45..] == c2;
  }

  /** The closed `LastModifiedDate` range: fixed text around the two
      rendered bounds. */
  function TimeClause(start: Instant, end: Instant): (c: string)
    requires Formattable(start) && Formattable(end)
    ensures |c| == 97 && c[96] == '\''
    ensures c[..21] == "LastModifiedDate >= '" && c[45..72] == "' AND LastModifiedDate <= '"
    ensures c[21..45] == FormatTimestamp(start) && c[72..96] == FormatTimestamp(end)
  {
    var f1, f2 := FormatTimestamp(start), FormatTimestamp(end);
    ClauseLayout(f1, f2);
    "LastModifiedDate >= '" + f1 + "' AND LastModifiedDate <= '" + f2 + "'"
  }

  /** Each bound in the time clause reads back as the instant it came from,
      truncated to the second. */
  lemma TimeClauseBounds(start: Instant, end: Instant)
    requires Formattable(start) && Formattable(end)
    ensures var c := TimeClause(start, end);
      && ParseTimestamp(c[21..45]) == Some(start - start % MicrosPerSecond)
      && ParseTimestamp(c[72..96]) == Some(end - end % MicrosPerSecond)
  {
    TimestampRoundTrip(start);
    TimestampRoundTrip(end);
  }

  /** A value as a quoted literal; nothing inside it is escaped. */
  function Quote(v: string): string
  {
    "'" + v + "'"
  }

  function QuoteAll(values: seq<string>): (r: seq<string>)
    ensures |r| == |values|
    ensures forall i :: 0 <= i < |values| ==> r[i] == Quote(values[i])
  {
    seq(|values|, i requires 0 <= i < |values| => Quote(values[i]))
  }

  /** `field IN ('v1', 'v2', ...)`. */
  function ConditionClause(c: Condition): (r: string)
    ensures c.values == [] ==> r == c.field + " IN ()"
    ensures |c.values| == 1 ==> r == c.field + " IN ('" + c.values[0] + "')"
    ensures |r| > 0 && r[|r| - 1] == ')'
  {
    c.field + " IN (" + Join(", ", QuoteAll(c.values)) + ")"
  }

  /** A quote inside a value is copied as it is, so the literal it lands
      in ends early. */
  lemma ConditionValuesUnescaped()
    ensures ConditionClause(Condition("Name", ["O'Brien"])) == "Name IN ('O'Brien')"
  {
  }

  /** The condition clauses in the mapping's order, one per entry. */
  function ConditionClauses(cs: seq<Condition>): (r: seq<string>)
    ensures |r| == |cs|
    ensures forall i :: 0 <= i < |cs| ==> r[i] == ConditionClause(cs[i])
  {
    if cs == [] then []
    else ConditionClauses(cs[..|cs| - 1]) + [ConditionClause(cs[|cs| - 1])]
  }

  /** The clauses of the WHERE section: the time range first when both
      bounds are present, then one clause per condition in order. */
  function Clauses(q: QuerySpec): (cs: seq<string>)
    requires Renderable(q)
    ensures |cs| == (if HasTimeRange(q) then 1 else 0) + |q.conditions|
    ensures HasTimeRange(q) ==> cs[0] == TimeClause(q.startDate.value, q.endDate.value)
    ensures HasTimeRange(q) ==>
      forall i :: 0 <= i < |q.conditions| ==> cs[1 + i] == ConditionClause(q.conditions[i])
    ensures !HasTimeRange(q) ==>
      forall i :: 0 <= i < |q.conditions| ==> cs[i] == ConditionClause(q.conditions[i])
  {
    var time := if HasTimeRange(q) then [TimeClause(q.startDate.value, q.endDate.value)] else [];
    time + ConditionClauses(q.conditions)
  }

  /** The WHERE section of a list of clauses. */
  function WhereOf(cs: seq<string>): (w: string)
    ensures w == "" <==> cs == []
    ensures cs != [] ==> |w| >= 6 && w[..6] == "WHERE "
  {
    if cs == [] then "" else "WHERE " + Join(" AND ", cs)
  }

  /** `construct_where`: collects the clauses one by one, then joins them. */
  method ConstructWhere(q: QuerySpec) returns (w: string)
    requires Renderable(q)
    ensures w == WhereOf(Clauses(q))
  {
    var whereClauses: seq<string> := [];
    if HasTimeRange(q) {
      whereClauses := whereClauses + [TimeClause(q.startDate.value, q.endDate.value)];
    }
    ghost var timePart := whereClauses;
    var i := 0;
    while i < |q.conditions|
      invariant 0 <= i <= |q.conditions|
      invariant whereClauses == timePart + ConditionClauses(q.conditions[..i])
    {
      var c := q.conditions[i];
      whereClauses := whereClauses + [c.field + " IN (" + Join(", ", QuoteAll(c.values)) + ")"];
      assert q.conditions[..i + 1][..i] == q.conditions[..i];
      i := i + 1;
    }
    assert q.conditions[..i] == q.conditions;
    if whereClauses != [] {
      w := "WHERE " + Join(" AND ", whereClauses);
    } else {
      w := "";
    }
  }

  // ---------------------------------------------------------------------
  // The whole query

  /** The text `construct_query` returns. */
  function QueryText(q: QuerySpec): (s: string)
    requires Renderable(q)
    ensures var f, w := ConstructFields(q.fieldNames), WhereOf(Clauses(q));
      && |s| == |f| + |q.apiName| + 7 + |w|
      && s[..|f|] == f && s[|f|..|f| + 6] == " FROM "
      && s[|f| + 6..|f| + 6 + |q.apiName|] == q.apiName && s[|f| + 6 + |q.apiName|] == ' '
      && s[|s| - |w|..] == w
  {
    ConstructFields(q.fieldNames) + " FROM " + q.apiName + " " + WhereOf(Clauses(q))
  }

  /** `construct_query`. */
  method ConstructQuery(q: QuerySpec) returns (s: string)
    requires Renderable(q)
    ensures s == QueryText(q)
  {
    var fields := ConstructFields(q.fieldNames);
    var where := ConstructWhere(q);
    s := fields + " FROM " + q.apiName + " " + where;
  }

  /** The last character of a join is the last character of its last part. */
  lemma {:induction false} JoinLastChar(sep: string, parts: seq<string>)
    requires parts != [] && parts[|parts| - 1] != ""
    ensures var j, p := Join(sep, parts), parts[|parts| - 1];
      |j| > 0 && j[|j| - 1] == p[|p| - 1]
  {
    if |parts| > 1 {
      JoinLastChar(sep, parts[1..]);
    }
  }

  /** Every clause ends with `)` or a quote, never with a space. */
  lemma LastClauseEnd(q: QuerySpec)
    requires Renderable(q) && Clauses(q) != []
    ensures var cs := Clauses(q); var c := cs[|cs| - 1];
      |c| > 0 && (c[|c| - 1] == ')' || c[|c| - 1] == '\'')
  {
    var cs := Clauses(q);
    if q.conditions != [] {
      assert cs[|cs| - 1] == ConditionClause(q.conditions[|q.conditions| - 1]);
    } else {
      assert cs[|cs| - 1] == TimeClause(q.startDate.value, q.endDate.value);
    }
  }

  /** A non-empty WHERE section ends as its last clause does. */
  lemma WhereLastChar(cs: seq<string>)
    requires cs != [] && cs[|cs| - 1] != ""
    ensures var w, c := WhereOf(cs), cs[|cs| - 1]; |w| > 0 && w[|w| - 1] == c[|c| - 1]
  {
    JoinLastChar(" AND ", cs);
  }

  /** The WHERE keyword is emitted exactly when some clause is: then the
      query ends with the last clause, otherwise with the space after the
      object name. */
  lemma QueryEndsWithSpaceIffNoWhere(q: QuerySpec)
    requires Renderable(q)
    ensures var s := QueryText(q);
      s[|s| - 1] == ' ' <==> !HasTimeRange(q) && q.conditions == []
  {
    var cs := Clauses(q);
    var pre := ConstructFields(q.fieldNames) + " FROM " + q.apiName + " ";
    var w := WhereOf(cs);
    assert QueryText(q) == pre + w;
    if cs != [] {
      LastClauseEnd(q);
      WhereLastChar(cs);
      assert (pre + w)[|pre + w| - 1] == w[|w| - 1];
    } else {
      assert (pre + w)[|pre + w| - 1] == ' ';
    }
  }

  /** With no time range and no conditions the query is the SELECT list,
      `FROM`, the object name and a trailing space, with no WHERE. */
  lemma QueryWithoutFilters(q: QuerySpec)
    requires !HasTimeRange(q) && q.conditions == []
    ensures QueryText(q) == ConstructFields(q.fieldNames) + " FROM " + q.apiName + " "
  {
  }

  /** With a time range and conditions, the time clause comes first and the
      condition clauses follow, all separated by ` AND `. */
  lemma {:induction false} WhereTimeFirst(q: QuerySpec)
    requires Renderable(q) && HasTimeRange(q) && q.conditions != []
    ensures WhereOf(Clauses(q))
         == "WHERE " + TimeClause(q.startDate.value, q.endDate.value) + " AND "
            + Join(" AND ", ConditionClauses(q.conditions))
  {
    JoinCons(" AND ", TimeClause(q.startDate.value, q.endDate.value), ConditionClauses(q.conditions));
  }
}
