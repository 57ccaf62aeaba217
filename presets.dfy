/** `DatePresets`: five named look-back windows ending at "now". The clock
    is a parameter: `now` is the instant the presets are generated at. */
module Presets {
  import opened Text
  import opened Calendar

  /** A (start, end) pair of a preset. */
  datatype Interval = Interval(start: Instant, end: Instant)

  const PresetNames: set<string> := {"last_30d", "last_7d", "last_24h", "last_week", "yesterday"}

  /** How many days each preset looks back. */
  function LookBackDays(name: string): (d: nat)
    requires name in PresetNames
    ensures d in {1, 7, 30}
  {
    if name == "last_30d" then 30
    else if name == "last_7d" || name == "last_week" then 7
    else 1
  }

  /** The look-back of a preset in microseconds, at most 30 days. */
  function LookBack(name: string): (us: int)
    requires name in PresetNames
    ensures us == LookBackDays(name) * MicrosPerDay
    ensures MicrosPerDay <= us <= 30 * MicrosPerDay
  {
    LookBackDays(name) * MicrosPerDay
  }

  /** `_generate_date_presets`. `now - 30 days` before 0001-01-01 raises
      `OverflowError` in Python, and the 30-day entry is built first, so the
      mapping exists exactly when `now` is at least 30 days in. */
  function GeneratePresets(now: Instant): (r: Option<map<string, Interval>>)
    ensures r.Some? <==> now >= 30 * MicrosPerDay
    ensures r.Some? ==> r.value.Keys == PresetNames
    ensures r.Some? ==> forall name :: name in r.value ==>
      && r.value[name].end == now
      && r.value[name].end - r.value[name].start == LookBackDays(name) * MicrosPerDay
  {
    if now < 30 * MicrosPerDay then None
    else
      var day := MicrosPerDay;
      Some(map[
        "last_30d" := Interval(now - 30 * day, now),
        "last_7d" := Interval(now - 7 * day, now),
        "last_24h" := Interval(now - 1 * day, now),
        "last_week" := Interval(now - 7 * day, now),
        "yesterday" := Interval(now - 1 * day, now)
      ])
  }

  /** Every preset is a non-empty window that ends at `now`, and the two
      pairs of synonyms denote the same window. */
  lemma PresetsWellFormed(now: Instant)
    requires now >= 30 * MicrosPerDay
    ensures var p := GeneratePresets(now).value;
      && (forall name :: name in p ==> p[name].start < p[name].end)
      && p["last_7d"] == p["last_week"]
      && p["last_24h"] == p["yesterday"]
      && p["last_30d"].start < p["last_7d"].start < p["last_24h"].start
  {
  }
}
