# Salesforce query builder and retrieval plan, in Dafny

This project models the pure core of `projects/SALESFORCE/salesforce_main.py`:

- the SOQL query builder `QueryConstructor` (module `Query`): the SELECT list
  without the compound fields `BillingAddress`, `ShippingAddress` and
  `Geolocation`, the `FROM <object>` part, and the optional WHERE section made
  of a closed `LastModifiedDate` range (bounds rendered as
  `YYYY-MM-DDTHH:MM:SS.000Z`) followed by one `field IN ('v1', ...)` clause per
  condition, all joined with ` AND `;
- `DatePresets._generate_date_presets` (module `Presets`): five named windows
  ending at "now";
- the retrieval decision of `LitifyObject.get_records` and the output
  locations of `query_data_bulk1`, `get_all_records` and
  `write_results_in_file` (module `Records`);
- the part of Python's `datetime` these rely on (module `Calendar`): instants
  as microseconds since 0001-01-01T00:00:00 UTC, their proleptic Gregorian
  calendar fields, `strftime("%Y-%m-%dT%H:%M:%S.000Z")`, `strftime("%Y-%m-%d")`
  and `str()` of a UTC-aware datetime;
- `str.join` and zero-padded decimals (module `Text`).

`construct_where` builds its list of clauses by appending in a loop, so it is
the method `Query.ConstructWhere`, proved against the function `Query.Clauses`
and `Query.WhereOf`. Everything else in the core is expressions and is
modelled by functions and lemmas. The clock is a parameter: `now` for the
presets and `today` (the local wall-clock reading) for the dated file name.

Two consequences of the code are worth stating:

- `get_records` tests the field list after defaulting it
  (`fields_to_query or self.fields`, line 167), so an object with any field
  never takes the all-records path (`Records.AllRecordsNeedsFieldlessObject`).
  When that path is taken, its query is `SELECT  FROM <api> `
  (`Records.AllRecordsQueryIsEmptySelect`).
- A query without filters ends with a space after the object name (line 187;
  `Query.QueryWithoutFilters`, `Query.QueryEndsWithSpaceIffNoWhere`).

## Model

| member | source | states |
|---|---|---|
| Query.SelectableFields | projects/SALESFORCE/salesforce_main.py:190-191 | a field is kept iff it occurs in the input and is not one of the three compound fields |
| Query.SelectableFieldsAppend | projects/SALESFORCE/salesforce_main.py:191 | filtering distributes over concatenation, so kept fields keep their original order |
| Query.SelectableFieldsCount | projects/SALESFORCE/salesforce_main.py:191 | each non-compound field is kept as many times as it occurs (duplicates included); compound fields occur zero times |
| Query.SelectableFieldsKeepsPlainLists | projects/SALESFORCE/salesforce_main.py:191 | a list with no compound field is kept unchanged |
| Query.ConstructFields | projects/SALESFORCE/salesforce_main.py:189-192 | the SELECT list starts with `SELECT `, and it is exactly `SELECT ` iff nothing (or one empty name) is kept, so an empty list gives `SELECT ` |
| Text.Join | projects/SALESFORCE/salesforce_main.py:192 | `str.join`: empty for no parts, the part itself for one, and its length is the parts' total plus one separator between neighbours |
| Text.JoinAppend | projects/SALESFORCE/salesforce_main.py:207 | joining two non-empty lists puts exactly one separator between their joins |
| Calendar.FromInstant | projects/SALESFORCE/salesforce_main.py:194-195 | the calendar fields of an instant are valid (month 1..12, day within the month, time of day in range) and denote that instant |
| Calendar.FromToInstant | projects/SALESFORCE/salesforce_main.py:194-195 | valid calendar fields survive the trip through an instant unchanged |
| Calendar.ToInstantInjective | projects/SALESFORCE/salesforce_main.py:194-195 | two valid field sets name the same instant iff they are equal |
| Calendar.FormattableYear | projects/SALESFORCE/salesforce_main.py:194-195 | the renderable instants are exactly those whose year is at least 1000 |
| Calendar.FormatTimestamp | projects/SALESFORCE/salesforce_main.py:194-195 | `format_date` gives 24 characters ending in the literal `.000Z` |
| Calendar.TimestampRoundTrip | projects/SALESFORCE/salesforce_main.py:194-195 | reading the rendering back gives the instant truncated to the second: only the sub-second part is lost |
| Calendar.ParsedTimestampRendersBack | projects/SALESFORCE/salesforce_main.py:194-195 | any text that reads back as an instant is exactly that instant's rendering |
| Query.TimeClause | projects/SALESFORCE/salesforce_main.py:199-202 | the time clause is `LastModifiedDate >= '<start>' AND LastModifiedDate <= '<end>'`, 97 characters, with each rendered bound at a fixed place |
| Query.TimeClauseBounds | projects/SALESFORCE/salesforce_main.py:199-202 | the two bounds in the time clause read back as the start and end instants truncated to the second |
| Query.QuoteAll | projects/SALESFORCE/salesforce_main.py:205 | each value becomes `'<value>'`, one per value, in order, with nothing escaped |
| Query.ConditionClause | projects/SALESFORCE/salesforce_main.py:205 | `field IN ()` for no values, `field IN ('v')` for one, and every clause ends with `)` |
| Query.ConditionClauses | projects/SALESFORCE/salesforce_main.py:203-206 | one clause per condition entry, in the mapping's order |
| Query.Clauses | projects/SALESFORCE/salesforce_main.py:197-206 | the number of clauses is (time range ? 1 : 0) + number of conditions; the time clause comes first, then the condition clauses in order |
| Query.WhereOf | projects/SALESFORCE/salesforce_main.py:207 | the WHERE section is empty iff there are no clauses, and otherwise starts with `WHERE ` |
| Query.ConstructWhere | projects/SALESFORCE/salesforce_main.py:197-207 | the loop that appends clauses produces exactly `WhereOf(Clauses(q))` |
| Query.ConstructQuery | projects/SALESFORCE/salesforce_main.py:184-187 | `construct_query` is the SELECT list, ` FROM `, the object name, a space and the WHERE section |
| Query.QueryEndsWithSpaceIffNoWhere | projects/SALESFORCE/salesforce_main.py:184-207 | the query ends with a space iff there is neither a time range nor a condition, that is iff no WHERE section is emitted |
| Query.QueryWithoutFilters | projects/SALESFORCE/salesforce_main.py:187 | without filters the query is `SELECT ... FROM <api> `, with a trailing space |
| Query.WhereTimeFirst | projects/SALESFORCE/salesforce_main.py:199-207 | with a time range and conditions, the WHERE section is `WHERE <time> AND <cond1> AND ...` |
| Presets.LookBackDays | projects/SALESFORCE/salesforce_main.py:21-25 | each preset looks back 1, 7 or 30 days |
| Presets.GeneratePresets | projects/SALESFORCE/salesforce_main.py:18-26 | the presets exist iff `now` is at least 30 days after 0001-01-01; their keys are exactly the five names; each ends at `now` and starts its look-back days earlier |
| Presets.PresetsWellFormed | projects/SALESFORCE/salesforce_main.py:18-26 | every preset has start < end; `last_7d` equals `last_week` and `last_24h` equals `yesterday` |
| Records.ChooseStrategy | projects/SALESFORCE/salesforce_main.py:166-173 | the all-records path is taken iff the field list, the object's fields, the conditions, the preset and the range are all falsy |
| Records.AllRecordsNeedsFieldlessObject | projects/SALESFORCE/salesforce_main.py:167-171 | an object with any field always takes the filtered path |
| Records.AllRecordsPlan | projects/SALESFORCE/salesforce_main.py:152-161 | the all-records query selects the object's fields without WHERE and is written to `results/all_records/<api>/` as `all_records2` |
| Records.AllRecordsQueryIsEmptySelect | projects/SALESFORCE/salesforce_main.py:166-171 | when `get_records` takes the all-records path, the query is `SELECT  FROM <api> ` |
| Records.FilteredPlanAsWritten | projects/SALESFORCE/salesforce_main.py:128-139 | `query_data_bulk1` fails (unbound `start_date`) iff it is given no date range |
| Records.FilteredPlan | projects/SALESFORCE/salesforce_main.py:128-139 | the corrected filtered plan: the query of the given fields, conditions and bounds (no time clause without a range); with a range it goes under `by_date` as `from_<start>_to_<end>_data`, without one under `queries` as `<YYYY-MM-DD>_query_results` |
| Records.FilteredPlanAgreesWhereSourceCompletes | projects/SALESFORCE/salesforce_main.py:128-139 | wherever the source completes, the corrected plan is the one it produces |
| Records.GetRecordsAsWritten | projects/SALESFORCE/salesforce_main.py:166-173 | `get_records` fails iff it takes the filtered path and the effective date range is falsy |
| Records.GetRecords | projects/SALESFORCE/salesforce_main.py:166-173 | the plan takes the strategy that `ChooseStrategy` decides; on the all-records path it is `get_all_records`' plan, otherwise it is the corrected `query_data_bulk1` plan (`FilteredPlan`) for the defaulted field list, the conditions and the effective range, so its query, directory and file name follow |
| Records.EffectiveFields | projects/SALESFORCE/salesforce_main.py:167 | the caller's field list when it is non-empty, otherwise the object's; empty iff both are |
| Records.EffectiveRange | projects/SALESFORCE/salesforce_main.py:168 | a known preset gives that preset's two bounds, an unknown one no range, and without a preset the caller's `date_range` is used |
| Records.ExplicitRangePlan | projects/SALESFORCE/salesforce_main.py:168-173 | without a preset, a truthy `date_range` gives a filtered query with its bounds, written under `by_date` and named by them; the code as written completes with the same plan |
| Records.NoArgumentCallFailsAsWritten | projects/SALESFORCE/salesforce_main.py:166-173 | `get_records()` with no arguments on an object with fields fails with the unbound `start_date` |
| Records.NoArgumentCallCorrected | projects/SALESFORCE/salesforce_main.py:166-173 | corrected, that call queries all fields without WHERE into `results/<api>/queries`, named by today's date |
| Records.KnownPresetPlan | projects/SALESFORCE/salesforce_main.py:168-173 | a known preset gives a filtered query whose first clause is the preset's time range, written under `by_date` and named by its bounds |
| Records.UnknownPresetDropsRange | projects/SALESFORCE/salesforce_main.py:168 | an unknown preset name overrides any explicit range, so the query has no time range; as written the call fails |
| Records.GeneratedPresetPlan | projects/SALESFORCE/salesforce_main.py:18-26 | for an object holding the presets generated at `now`, each preset holds the window from `now` minus its look-back days to `now`, and `get_records` with it gives exactly the filtered plan whose query has that window as its time range, written under `by_date` and named by the window |
| Records.DayFilename | projects/SALESFORCE/salesforce_main.py:136-137 | the dated file name is the `YYYY-MM-DD` of `today` followed by `_query_results` (24 characters) |
| Calendar.FormatDay | projects/SALESFORCE/salesforce_main.py:136 | `strftime("%Y-%m-%d")` is the first ten characters of the timestamp rendering |
| Calendar.IsoStringInjective | projects/SALESFORCE/salesforce_main.py:133 | `str()` of two UTC datetimes is the same text iff they are the same instant |
| Records.RangeFilenameInjective | projects/SALESFORCE/salesforce_main.py:133 | two date ranges share a by-date file name iff their bounds are equal |
| Records.RootsNeverCollide | projects/SALESFORCE/salesforce_main.py:132-160 | the `by_date`, `queries` and `all_records` path strings differ, whatever the objects |
| Records.ByDateMeetsAllRecords | projects/SALESFORCE/salesforce_main.py:132-160 | for an object name without `/`, `results/<a>/by_date` is the directory `results/all_records/<c>/` iff `a` is `all_records` and `c` is `by_date` |
| Records.QueriesMeetsAllRecords | projects/SALESFORCE/salesforce_main.py:135-160 | for an object name without `/`, `results/<b>/queries` is the directory `results/all_records/<c>/` iff `b` is `all_records` and `c` is `queries` |
| Records.SlashedNamesMeet | projects/SALESFORCE/salesforce_main.py:132-160 | with a slash in the object name more directories coincide: `results/all_records/x/by_date/` is reached both ways |
| Records.ByDateRoot | projects/SALESFORCE/salesforce_main.py:132 | the directory is `results/`, the object name and `/by_date` |
| Records.QueriesRoot | projects/SALESFORCE/salesforce_main.py:135 | the directory is `results/`, the object name and `/queries` |
| Records.AllRecordsRoot | projects/SALESFORCE/salesforce_main.py:160 | the directory is `results/all_records/`, the object name and a final `/` |
| Records.Show | projects/SALESFORCE/salesforce_main.py:133 | a bound shows as `None` exactly when it is absent, and otherwise as `str()` of the datetime (25 or 32 characters) |
| Records.RangeFilename | projects/SALESFORCE/salesforce_main.py:133 | the name is `from_`, the shown start, `_to_`, the shown end and `_data`, with each shown bound at a fixed place |
| Calendar.IsoString | projects/SALESFORCE/salesforce_main.py:133 | `str()` of a UTC-aware datetime: `YYYY-MM-DD HH:MM:SS`, then `.ffffff` only when the microseconds are non-zero, then `+00:00` (25 or 32 characters) |
| Query.QueryText | projects/SALESFORCE/salesforce_main.py:187 | the query is the SELECT list, ` FROM `, the object name, a space and the WHERE section, each at its place |
| Query.ConditionValuesUnescaped | projects/SALESFORCE/salesforce_main.py:205 | a value holding a quote is copied unescaped: `Name IN ('O'Brien')` |
| Records.RootsDetermineObject | projects/SALESFORCE/salesforce_main.py:132-160 | each kind of directory names its object: equal directories iff equal objects |
| Records.WriteFilename | projects/SALESFORCE/salesforce_main.py:104-105 | the caller's file name, or `<api>_data` when none is given |

## Left out

- The connector singleton and the session construction (lines 32-52): credential loading and a remote session from a foreign library.
- `get_description`, `get_all_fields` and `get_updated_records` (lines 67-77, 117-126): remote describe and HTTP calls. The field list is an input (`Records.Accessor.fields`).
- The bulk and bulk2 query calls (lines 140, 154-159): opaque library cursors. The model stops at the plan they are given (query, directory, file name).
- `write_dict_results_in_file` and the writing part of `write_results_in_file` (lines 84-115): filesystem checks, deletion, append-mode writes and the JSON/CSV encoders are I/O and library serialisers. Only the default file name (lines 104-105) is modelled.
- `csv_string_to_dict` (lines 79-82): a thin wrapper over `csv.DictReader`.
- `get_all_records`'s early return on `self.df_records` (lines 149-150): that attribute is never set to anything but `None` in the file, so the branch is never taken.
- The clock (lines 19, 136): `now` and `today` are parameters.
- Records.Show: models `str()` of UTC-aware datetimes only (as the presets produce); a caller-supplied range holding naive datetimes or strings is not modelled.
- Query.Renderable: bounds with years before 1000 are excluded, because `%Y` pads them differently on different platforms.
- Records.Accessor: the conditions mapping is a sequence of entries in insertion order. Its keys are distinct in the source, but nothing in the model depends on that. `None` and `{}` are both the empty sequence, as the code only tests the mapping for truth. Likewise a falsy preset (`None` or `""`) is `""`.
- Query.QuoteAll: each condition's values are a list of strings. In Python a set would be iterated in its own order, a plain string character by character, and a non-string item rendered with `str()`; those are not modelled.
- Records.RootsNeverCollide: the path strings always differ, but the directories can coincide: `results/all_records/by_date` is both `ByDateRoot("all_records")` and, with its final `/`, `AllRecordsRoot("by_date")` (`Records.ByDateMeetsAllRecords`, `Records.QueriesMeetsAllRecords`). The model does not promise separate directories.
- Line 205 puts backslashes inside an f-string replacement field, which Python accepts only from version 3.12 (PEP 701); earlier versions reject the file. The model describes the file as run on 3.12 or later.
- `fields_names=None` in `QueryConstructor` (line 177) would fail at line 191; the field list is always a sequence here.

## Findings

| source | as written | input that shows it | evidently intended | confidence | as-written member | corrected member |
|---|---|---|---|---|---|---|
| projects/SALESFORCE/salesforce_main.py:128-139 | `start_date` and `end_date` are bound only in the `if date_range_query:` branch, but line 139 reads them on both branches, so every filtered retrieval without a date range raises `UnboundLocalError`; the `queries` directory and the dated file name are computed and never used | `get_records()` with no arguments on an object that has fields (`Records.NoArgumentCallFailsAsWritten`); also any unknown preset name (`Records.UnknownPresetDropsRange`) | without a date range the query has no time clause (both bounds absent) and the results go to `results/<api>/queries/<YYYY-MM-DD>_query_results` | high, not executed | Records.FilteredPlanAsWritten | Records.FilteredPlan |
