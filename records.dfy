/** `LitifyObject`'s retrieval decision: which strategy `get_records` takes,
    which query it sends and where the results are written. The remote
    calls and the file writing are left out; what remains is the plan they
    are given: the query text, the output directory and the file name. */
module Records {
  import opened Text
  import opened Calendar
  import opened Presets
  import opened Query

  /** The state of a `LitifyObject` that the decision reads: the object's
      API name, its field names (from the describe call) and its presets. */
  datatype Accessor = Accessor(apiName: string, fields: seq<string>, presets: map<string, Interval>)

  /** A truthy date-range mapping; a bound is `None` when its key is
      missing or holds `None`. A falsy mapping (`None` or `{}`) is the
      `None` of `Option<DateRange>`. */
  datatype DateRange = DateRange(start: Option<Instant>, end: Option<Instant>)

  datatype Strategy = AllRecords | Filtered

  /** What a retrieval sends and where it writes. */
  datatype Plan = Plan(strategy: Strategy, query: string, root: string, filename: string)

  /** Python's `UnboundLocalError` for the named local. */
  datatype Failure = UnboundLocal(name: string)

  datatype Result<T> = Ok(value: T) | Err(failure: Failure)

  // ---------------------------------------------------------------------
  // Output locations

  /** `results/<api>/by_date`, where ranged queries are written. */
  function ByDateRoot(api: string): (r: string)
    ensures |r| == |api| + 16
    ensures r[..8] == "results/" && r[8..|r| - 8] == api && r[|r| - 8..] == "/by_date"
  {
    "results/" + api + "/by_date"
  }

  /** `results/<api>/queries`, where queries without a range are written. */
  function QueriesRoot(api: string): (r: string)
    ensures |r| == |api| + 16
    ensures r[..8] == "results/" && r[8..|r| - 8] == api && r[|r| - 8..] == "/queries"
  {
    "results/" + api + "/queries"
  }

  /** `results/all_records/<api>/`, where `get_all_records` writes. */
  function AllRecordsRoot(api: string): (r: string)
    ensures |r| == |api| + 21
    ensures r[..20] == "results/all_records/" && r[20..|r| - 1] == api && r[|r| - 1] == '/'
  {
    "results/all_records/" + api + "/"
  }

  const AllRecordsFilename: string := "all_records2"

  /** `str()` of a bound inside an f-string: `None`, or the ISO text of a
      UTC-aware datetime. */
  function Show(o: Option<Instant>): (s: string)
    ensures o.None? <==> s == "None"
    ensures o.Some? ==> s == IsoString(o.value) && |s| in {25, 32}
  {
    match o
    case None => "None"
    case Some(t) => IsoString(t)
  }

  /** `from_<start>_to_<end>_data`, each bound as `str()` shows it. */
  function RangeFilename(start: Option<Instant>, end: Option<Instant>): (f: string)
    ensures |f| == |Show(start)| + |Show(end)| + 14
    ensures f[..5] == "from_" && f[5..5 + |Show(start)|] == Show(start)
    ensures f[|f| - 5..] == "_data" && f[|f| - 5 - |Show(end)|..|f| - 5] == Show(end)
  {
    var a, b := Show(start), Show(end);
    Framed("from_", a, "_to_", b, "_data");
    "from_" + a + "_to_" + b + "_data"
  }

  /** Where the two varying parts sit in `p + a + m + b + q`. */
  lemma Framed(p: string, a: string, m: string, b: string, q: string)
    ensures var f := p + a + m + b + q;
      && |f| == |p| + |a| + |m| + |b| + |q|
      && f[..|p|] == p && f[|p|..|p| + |a|] == a
      && f[|f| - |q|..] == q && f[|f| - |q| - |b|..|f| - |q|] == b
  {
    var f := p + a + m + b + q;
    assert f == p + a + (m + b + q);
    assert f == (p + a + m) + b + q;
  }

  /** The file name of a filtered query without a date range; `today` is
      the local wall-clock reading of `datetime.now()`. */
  function DayFilename(today: Instant): (f: string)
    requires Formattable(today)
    ensures |f| == 24 && f[..10] == FormatTimestamp(today)[..10]
    ensures f[10..] == "_query_results"
  {
    FormatDay(today) + "_query_results"
  }

  /** `write_results_in_file`'s file name: the caller's, or `<api>_data`. */
  function WriteFilename(api: string, filename: Option<string>): (f: string)
    ensures filename.Some? ==> f == filename.value
    ensures filename.None? ==> |f| == |api| + 5 && f[|api|..] == "_data" && f[..|api|] == api
  {
    match filename
    case Some(name) => name
    case None => api + "_data"
  }

  /** The three directory paths are different strings, whatever the
      objects (as directories, see `ByDateMeetsAllRecords` and
      `QueriesMeetsAllRecords`). */
  lemma RootsNeverCollide(a: string, b: string, c: string)
    ensures ByDateRoot(a) != QueriesRoot(b)
    ensures ByDateRoot(a) != AllRecordsRoot(c)
    ensures QueriesRoot(b) != AllRecordsRoot(c)
  {
    var x, y, z := ByDateRoot(a), QueriesRoot(b), AllRecordsRoot(c);
    assert x[|x| - 1] == 'e';
    assert y[|y| - 1] == 's';
    assert z[|z| - 1] == '/';
  }

  /** `results/<a>/by_date` and `results/<a>/queries` are the same
      directory as `results/all_records/<c>/` exactly when `a` is
      `all_records` and `c` is `by_date`, for an object name `a` without a
      slash. */
  lemma ByDateMeetsAllRecords(a: string, c: string)
    requires '/' !in a
    ensures ByDateRoot(a) + "/" == AllRecordsRoot(c) <==> a == "all_records" && c == "by_date"
  {
    assert ByDateRoot(a) + "/" == "results/" + a + "/" + "by_date" + "/";
    if ByDateRoot(a) + "/" == AllRecordsRoot(c) {
      DirectoryUnderAllRecords(a, "by_date", c);
    }
  }

  /** The same for `results/<b>/queries`. */
  lemma QueriesMeetsAllRecords(b: string, c: string)
    requires '/' !in b
    ensures QueriesRoot(b) + "/" == AllRecordsRoot(c) <==> b == "all_records" && c == "queries"
  {
    assert QueriesRoot(b) + "/" == "results/" + b + "/" + "queries" + "/";
    if QueriesRoot(b) + "/" == AllRecordsRoot(c) {
      DirectoryUnderAllRecords(b, "queries", c);
    }
  }

  /** `results/<a>/<sub>/` read as `results/all_records/<c>/`: with no slash
      in `a`, the first slash after `results/` fixes `a`, and `c` is `sub`. */
  lemma DirectoryUnderAllRecords(a: string, sub: string, c: string)
    requires '/' !in a
    requires "results/" + a + "/" + sub + "/" == AllRecordsRoot(c)
    ensures a == "all_records" && c == sub
  {
    var u := "results/" + a + "/" + sub + "/";
    var v := AllRecordsRoot(c);
    // the first slash after `results/` is right after `a` in `u` and at
    // index 19 in `v`
    assert u[8 + |a|] == '/';
    assert forall j :: 8 <= j < 8 + |a| ==> u[j] == a[j - 8] != '/';
    assert v[19] == '/';
    assert forall j :: 8 <= j < 19 ==> v[j] != '/';
    assert |a| == 11;
    assert a == u[8..19] == v[8..19];
    assert sub == u[20..|u| - 1] && c == v[20..|v| - 1];
  }

  /** The directories are different when a slash may occur in the name:
      `results/all_records/x/by_date/` is both kinds. */
  lemma SlashedNamesMeet()
    ensures ByDateRoot("all_records/x") + "/" == AllRecordsRoot("x/by_date")
  {
  }

  /** Each directory names its object: different objects, different
      directories. */
  lemma RootsDetermineObject(a: string, b: string)
    ensures ByDateRoot(a) == ByDateRoot(b) <==> a == b
    ensures QueriesRoot(a) == QueriesRoot(b) <==> a == b
    ensures AllRecordsRoot(a) == AllRecordsRoot(b) <==> a == b
  {
    var x1, x2 := ByDateRoot(a), ByDateRoot(b);
    assert x1[8..|x1| - 8] == a && x2[8..|x2| - 8] == b;
    var y1, y2 := QueriesRoot(a), QueriesRoot(b);
    assert y1[8..|y1| - 8] == a && y2[8..|y2| - 8] == b;
    var z1, z2 := AllRecordsRoot(a), AllRecordsRoot(b);
    assert z1[20..|z1| - 1] == a && z2[20..|z2| - 1] == b;
  }

  lemma ShowInjective(a: Option<Instant>, b: Option<Instant>)
    ensures Show(a) == Show(b) <==> a == b
  {
    assert Show(a)[0] == 'N' <==> a.None?;
    assert Show(b)[0] == 'N' <==> b.None?;
    if a.Some? && b.Some? {
      IsoStringInjective(a.value, b.value);
    }
  }

  /** The length of a rendered bound, read off the text at `at`: `None` is
      four characters, a datetime 25 or 32 depending on whether a `+` or a
      `.` follows the seconds. */
  function ShownLengthAt(f: string, at: nat): nat
  {
    if at < |f| && f[at] == 'N' then 4
    else if at + 19 < |f| && f[at + 19] == '+' then 25
    else 32
  }

  /** A by-date file name tells how long its shown start is. */
  lemma RangeFilenameSplit(s: Option<Instant>, e: Option<Instant>)
    ensures ShownLengthAt(RangeFilename(s, e), 5) == |Show(s)|
  {
    var f, a := RangeFilename(s, e), Show(s);
    assert f[5..5 + |a|] == a;
    if s.Some? {
      assert f[5] == a[0] && f[24] == a[19];
    } else {
      assert f[5] == a[0];
    }
  }

  /** Two date ranges share a by-date file name only if they are the same
      range: the name can be read back unambiguously. */
  lemma RangeFilenameInjective(s1: Option<Instant>, e1: Option<Instant>,
                               s2: Option<Instant>, e2: Option<Instant>)
    ensures RangeFilename(s1, e1) == RangeFilename(s2, e2) <==> s1 == s2 && e1 == e2
  {
    var f1, f2 := RangeFilename(s1, e1), RangeFilename(s2, e2);
    if f1 == f2 {
      RangeFilenameSplit(s1, e1);
      RangeFilenameSplit(s2, e2);
      assert Show(s1) == f1[5..5 + |Show(s1)|] == f2[5..5 + |Show(s2)|] == Show(s2);
      assert Show(e1) == f1[|f1| - 5 - |Show(e1)|..|f1| - 5] == f2[|f2| - 5 - |Show(e2)|..|f2| - 5] == Show(e2);
      ShowInjective(s1, s2);
      ShowInjective(e1, e2);
    }
  }

  // ---------------------------------------------------------------------
  // get_records

  /** `fields_to_query or self.fields`. */
  function EffectiveFields(acc: Accessor, fieldsToQuery: seq<string>): (f: seq<string>)
    ensures f == [] <==> fieldsToQuery == [] && acc.fields == []
    ensures fieldsToQuery != [] ==> f == fieldsToQuery
    ensures fieldsToQuery == [] ==> f == acc.fields
  {
    if fieldsToQuery != [] then fieldsToQuery else acc.fields
  }

  function AsRange(i: Interval): DateRange
  {
    DateRange(Some(i.start), Some(i.end))
  }

  /** `self.date_presets.get(date_preset) if date_preset else date_range`;
      a missing preset name and a falsy preset are both `""`. */
  function EffectiveRange(acc: Accessor, preset: string, range: Option<DateRange>): (r: Option<DateRange>)
    ensures preset != "" && preset in acc.presets ==>
      r == Some(DateRange(Some(acc.presets[preset].start), Some(acc.presets[preset].end)))
    ensures preset != "" && preset !in acc.presets ==> r == None
    ensures preset == "" ==> r == range
  {
    if preset != "" then
      if preset in acc.presets then Some(AsRange(acc.presets[preset])) else None
    else range
  }

  /** The strategy `get_records` takes: all records only when none of the
      four tested values is truthy. */
  function ChooseStrategy(acc: Accessor, fieldsToQuery: seq<string>, conditions: seq<Condition>,
                          preset: string, range: Option<DateRange>): (s: Strategy)
    ensures s == AllRecords
        <==> fieldsToQuery == [] && acc.fields == [] && conditions == [] && preset == "" && range == None
  {
    if EffectiveFields(acc, fieldsToQuery) == [] && conditions == [] && preset == "" && range == None
    then AllRecords else Filtered
  }

  /** The field list tested is the one already defaulted to the object's
      schema, so an object with any field never takes the all-records path,
      even when the caller gives nothing. */
  lemma AllRecordsNeedsFieldlessObject(acc: Accessor, fieldsToQuery: seq<string>,
                                       conditions: seq<Condition>, preset: string,
                                       range: Option<DateRange>)
    requires acc.fields != []
    ensures ChooseStrategy(acc, fieldsToQuery, conditions, preset, range) == Filtered
  {
  }

  /** The bounds of a range that the query renders can be rendered. */
  predicate RangeRenderable(r: Option<DateRange>)
  {
    r.Some? && r.value.start.Some? && r.value.end.Some? ==>
      Formattable(r.value.start.value) && Formattable(r.value.end.value)
  }

  function SpecFor(api: string, fields: seq<string>, conditions: seq<Condition>,
                   range: Option<DateRange>): QuerySpec
  {
    match range
    case Some(r) => QuerySpec(api, fields, conditions, r.start, r.end)
    case None => QuerySpec(api, fields, conditions, None, None)
  }

  /** `get_all_records`, as `get_records` calls it (no field list, so the
      object's own). */
  function AllRecordsPlan(acc: Accessor): (p: Plan)
    ensures p.root == AllRecordsRoot(acc.apiName) && p.filename == AllRecordsFilename
    ensures p.query == ConstructFields(acc.fields) + " FROM " + acc.apiName + " "
  {
    var q := QuerySpec(acc.apiName, acc.fields, [], None, None);
    QueryWithoutFilters(q);
    Plan(AllRecords, QueryText(q), AllRecordsRoot(acc.apiName), AllRecordsFilename)
  }

  /** `query_data_bulk1` as written: without a date range, `start_date` is
      read before it is assigned. */
  function FilteredPlanAsWritten(acc: Accessor, fields: seq<string>, conditions: seq<Condition>,
                                 range: Option<DateRange>, today: Instant): (r: Result<Plan>)
    requires RangeRenderable(range)
    requires range.None? ==> Formattable(today)
    ensures r.Err? <==> range.None?
  {
    match range
    case Some(dr) =>
      var q := QuerySpec(acc.apiName, fields, conditions, dr.start, dr.end);
      Ok(Plan(Filtered, QueryText(q), ByDateRoot(acc.apiName), RangeFilename(dr.start, dr.end)))
    case None =>
      // the directory and the dated name are computed, then the query
      // constructor is handed a `start_date` that was never bound
      var root, filename := QueriesRoot(acc.apiName), DayFilename(today);
      Err(UnboundLocal("start_date"))
  }

  /** `query_data_bulk1` with both bounds absent when there is no date
      range: the query then has no time clause. */
  function FilteredPlan(acc: Accessor, fields: seq<string>, conditions: seq<Condition>,
                        range: Option<DateRange>, today: Instant): (p: Plan)
    requires RangeRenderable(range)
    requires range.None? ==> Formattable(today)
    ensures p.strategy == Filtered
    ensures p.query == QueryText(SpecFor(acc.apiName, fields, conditions, range))
    ensures range.None? ==> !HasTimeRange(SpecFor(acc.apiName, fields, conditions, range))
    ensures p.root == if range.Some? then ByDateRoot(acc.apiName) else QueriesRoot(acc.apiName)
    ensures p.filename == match range
      case Some(dr) => RangeFilename(dr.start, dr.end)
      case None => DayFilename(today)
  {
    var q := SpecFor(acc.apiName, fields, conditions, range);
    match range
    case Some(dr) =>
      Plan(Filtered, QueryText(q), ByDateRoot(acc.apiName), RangeFilename(dr.start, dr.end))
    case None =>
      Plan(Filtered, QueryText(q), QueriesRoot(acc.apiName), DayFilename(today))
  }

  /** Wherever the source's `query_data_bulk1` completes, the corrected plan
      is the one it produces. */
  lemma FilteredPlanAgreesWhereSourceCompletes(acc: Accessor, fields: seq<string>,
                                               conditions: seq<Condition>,
                                               range: Option<DateRange>, today: Instant)
    requires RangeRenderable(range)
    requires range.None? ==> Formattable(today)
    ensures var w := FilteredPlanAsWritten(acc, fields, conditions, range, today);
      w.Ok? ==> w.value == FilteredPlan(acc, fields, conditions, range, today)
  {
  }

  /** What `get_records` needs of its inputs: the bounds it renders have
      four-digit years, and so does `today` when it names the file. */
  predicate Ready(acc: Accessor, fieldsToQuery: seq<string>, conditions: seq<Condition>,
                  preset: string, range: Option<DateRange>, today: Instant)
  {
    var r := EffectiveRange(acc, preset, range);
    && RangeRenderable(r)
    && (ChooseStrategy(acc, fieldsToQuery, conditions, preset, range) == Filtered && r.None?
        ==> Formattable(today))
  }

  /** `get_records` as written. */
  function GetRecordsAsWritten(acc: Accessor, fieldsToQuery: seq<string>,
                               conditions: seq<Condition>, preset: string,
                               range: Option<DateRange>, today: Instant): (r: Result<Plan>)
    requires Ready(acc, fieldsToQuery, conditions, preset, range, today)
    ensures r.Err? <==> ChooseStrategy(acc, fieldsToQuery, conditions, preset, range) == Filtered
                        && EffectiveRange(acc, preset, range).None?
  {
    if ChooseStrategy(acc, fieldsToQuery, conditions, preset, range) == AllRecords
    then Ok(AllRecordsPlan(acc))
    else FilteredPlanAsWritten(acc, EffectiveFields(acc, fieldsToQuery), conditions,
                               EffectiveRange(acc, preset, range), today)
  }

  /** `get_records`, with the corrected `query_data_bulk1`. */
  function GetRecords(acc: Accessor, fieldsToQuery: seq<string>, conditions: seq<Condition>,
                      preset: string, range: Option<DateRange>, today: Instant): (p: Plan)
    requires Ready(acc, fieldsToQuery, conditions, preset, range, today)
    ensures p.strategy == ChooseStrategy(acc, fieldsToQuery, conditions, preset, range)
    ensures p.strategy == AllRecords ==> p == AllRecordsPlan(acc)
    ensures p.strategy == Filtered ==>
      p.query == QueryText(SpecFor(acc.apiName, EffectiveFields(acc, fieldsToQuery), conditions,
                                   EffectiveRange(acc, preset, range)))
    ensures p.strategy == Filtered ==>
      p == FilteredPlan(acc, EffectiveFields(acc, fieldsToQuery), conditions,
                        EffectiveRange(acc, preset, range), today)
  {
    if ChooseStrategy(acc, fieldsToQuery, conditions, preset, range) == AllRecords
    then AllRecordsPlan(acc)
    else FilteredPlan(acc, EffectiveFields(acc, fieldsToQuery), conditions,
                      EffectiveRange(acc, preset, range), today)
  }

  /** Calling `get_records()` with no arguments on an object that has
      fields fails in the source: it takes the filtered path without a date
      range. */
  lemma NoArgumentCallFailsAsWritten(acc: Accessor, today: Instant)
    requires acc.fields != [] && Formattable(today)
    ensures GetRecordsAsWritten(acc, [], [], "", None, today) == Err(UnboundLocal("start_date"))
  {
  }

  /** The corrected call with no arguments queries every field of the
      object, without WHERE, into the dated `queries` directory. */
  lemma NoArgumentCallCorrected(acc: Accessor, today: Instant)
    requires acc.fields != [] && Formattable(today)
    ensures GetRecords(acc, [], [], "", None, today)
         == Plan(Filtered, ConstructFields(acc.fields) + " FROM " + acc.apiName + " ",
                 QueriesRoot(acc.apiName), DayFilename(today))
  {
    QueryWithoutFilters(QuerySpec(acc.apiName, acc.fields, [], None, None));
  }

  /** The all-records path is taken only for an object without fields, so
      its query selects nothing: `SELECT  FROM <api> `. */
  lemma AllRecordsQueryIsEmptySelect(acc: Accessor, fieldsToQuery: seq<string>,
                                     conditions: seq<Condition>, preset: string,
                                     range: Option<DateRange>, today: Instant)
    requires Ready(acc, fieldsToQuery, conditions, preset, range, today)
    requires ChooseStrategy(acc, fieldsToQuery, conditions, preset, range) == AllRecords
    ensures GetRecords(acc, fieldsToQuery, conditions, preset, range, today).query
         == "SELECT  FROM " + acc.apiName + " "
  {
    assert acc.fields == [];
    assert GetRecords(acc, fieldsToQuery, conditions, preset, range, today) == AllRecordsPlan(acc);
    assert ConstructFields(acc.fields) == "SELECT ";
  }

  /** A known preset gives a query with its time range first, written
      under `by_date` with a name built from its two bounds. */
  lemma KnownPresetPlan(acc: Accessor, fieldsToQuery: seq<string>, conditions: seq<Condition>,
                        preset: string, range: Option<DateRange>, today: Instant)
    requires preset != "" && preset in acc.presets
    requires Formattable(acc.presets[preset].start) && Formattable(acc.presets[preset].end)
    ensures Ready(acc, fieldsToQuery, conditions, preset, range, today)
    ensures var p, i := GetRecords(acc, fieldsToQuery, conditions, preset, range, today), acc.presets[preset];
      var q := QuerySpec(acc.apiName, EffectiveFields(acc, fieldsToQuery), conditions,
                         Some(i.start), Some(i.end));
      && p.strategy == Filtered
      && HasTimeRange(q) && p.query == QueryText(q)
      && Clauses(q)[0] == TimeClause(i.start, i.end)
      && p.root == ByDateRoot(acc.apiName)
      && p.filename == RangeFilename(Some(i.start), Some(i.end))
  {
  }

  /** An unknown preset name overrides any explicit range and leaves the
      query without a time range (in the source, the call fails). */
  lemma UnknownPresetDropsRange(acc: Accessor, fieldsToQuery: seq<string>,
                                conditions: seq<Condition>, preset: string,
                                range: Option<DateRange>, today: Instant)
    requires preset != "" && preset !in acc.presets && Formattable(today)
    ensures Ready(acc, fieldsToQuery, conditions, preset, range, today)
    ensures var p := GetRecords(acc, fieldsToQuery, conditions, preset, range, today);
      && p.root == QueriesRoot(acc.apiName) && p.filename == DayFilename(today)
      && p.query == QueryText(QuerySpec(acc.apiName, EffectiveFields(acc, fieldsToQuery),
                                        conditions, None, None))
    ensures GetRecordsAsWritten(acc, fieldsToQuery, conditions, preset, range, today).Err?
  {
  }

  /** Without a preset, a truthy `date_range` is the range queried: a
      by-date plan named by its two bounds. */
  lemma ExplicitRangePlan(acc: Accessor, fieldsToQuery: seq<string>, conditions: seq<Condition>,
                          dr: DateRange, today: Instant)
    requires RangeRenderable(Some(dr))
    ensures Ready(acc, fieldsToQuery, conditions, "", Some(dr), today)
    ensures var p := GetRecords(acc, fieldsToQuery, conditions, "", Some(dr), today);
      && p.strategy == Filtered
      && p.query == QueryText(QuerySpec(acc.apiName, EffectiveFields(acc, fieldsToQuery),
                                        conditions, dr.start, dr.end))
      && p.root == ByDateRoot(acc.apiName)
      && p.filename == RangeFilename(dr.start, dr.end)
    ensures GetRecordsAsWritten(acc, fieldsToQuery, conditions, "", Some(dr), today)
         == Ok(GetRecords(acc, fieldsToQuery, conditions, "", Some(dr), today))
  {
  }

  /** Presets generated at `now` that the query can render: every one of
      them holds the window from its look-back before `now` to `now`, and
      yields a filtered plan whose query has that window as its time range,
      written under `by_date` and named by it. */
  lemma GeneratedPresetPlan(acc: Accessor, now: Instant, name: string,
                            fieldsToQuery: seq<string>, conditions: seq<Condition>, today: Instant)
    requires now >= MinFormattable + 30 * MicrosPerDay
    requires acc.presets == GeneratePresets(now).value
    requires name in PresetNames
    ensures name in acc.presets && acc.presets[name] == Interval(now - LookBack(name), now)
    ensures Ready(acc, fieldsToQuery, conditions, name, None, today)
    ensures var w := acc.presets[name];
      GetRecords(acc, fieldsToQuery, conditions, name, None, today)
      == Plan(Filtered,
              QueryText(QuerySpec(acc.apiName, EffectiveFields(acc, fieldsToQuery), conditions,
                                  Some(w.start), Some(w.end))),
              ByDateRoot(acc.apiName), RangeFilename(Some(w.start), Some(w.end)))
  {
    GeneratedWindow(now, name);
    KnownPresetPlan(acc, fieldsToQuery, conditions, name, None, today);
  }

  /** The window a generated preset holds. */
  lemma GeneratedWindow(now: Instant, name: string)
    requires now >= MinFormattable + 30 * MicrosPerDay
    requires name in PresetNames
    ensures var start := now - LookBack(name);
      && start >= MinFormattable
      && name != "" && name in GeneratePresets(now).value
      && GeneratePresets(now).value[name] == Interval(start, now)
  {
  }
}
