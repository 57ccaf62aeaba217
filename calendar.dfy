/** The part of Python's `datetime` that the query builder and the output
    paths rely on: a point in time, its calendar fields in the proleptic
    Gregorian calendar, `strftime("%Y-%m-%dT%H:%M:%S.000Z")`,
    `strftime("%Y-%m-%d")` and `str()` of a UTC-aware datetime.

    A point in time is an `Instant`: the number of microseconds since
    0001-01-01T00:00:00 UTC, below the start of year 10000, which is exactly
    the range Python's `datetime` can represent. Day arithmetic on datetimes
    (`now - timedelta(days=k)`) becomes subtraction on instants. */
module Calendar {
  import opened Text

  const MicrosPerSecond: int := 1_000_000
  const SecondsPerDay: int := 86_400
  const MicrosPerDay: int := 86_400_000_000

  /** Days from 0001-01-01 to 10000-01-01 (Python's `date.max.toordinal()`). */
  const DaysBeforeYear10000: int := 3_652_059
  const MaxInstant: int := DaysBeforeYear10000 * MicrosPerDay

  /** Days from 0001-01-01 to 1000-01-01: the first day whose year `%Y`
      renders as four digits on every platform. */
  const DaysBeforeYear1000: int := 364_877
  const MinFormattable: int := DaysBeforeYear1000 * MicrosPerDay

  type Instant = t: int | 0 <= t < MaxInstant

  // ---------------------------------------------------------------------
  // The proleptic Gregorian calendar

  predicate IsLeap(y: int)
  {
    y % 4 == 0 && (y % 100 != 0 || y % 400 == 0)
  }

  function DaysInYear(y: int): int
  {
    if IsLeap(y) then 366 else 365
  }

  function DaysInMonth(y: int, m: int): int
    requires 1 <= m <= 12
  {
    if m == 2 then (if IsLeap(y) then 29 else 28)
    else if m == 4 || m == 6 || m == 9 || m == 11 then 30
    else 31
  }

  /** Days in year `y` before the first of month `m`. */
  function DaysBeforeMonth(y: int, m: int): int
    requires 1 <= m <= 12
  {
    (if m == 1 then 0 else if m == 2 then 31 else if m == 3 then 59
     else if m == 4 then 90 else if m == 5 then 120 else if m == 6 then 151
     else if m == 7 then 181 else if m == 8 then 212 else if m == 9 then 243
     else if m == 10 then 273 else if m == 11 then 304 else 334)
    + (if m > 2 && IsLeap(y) then 1 else 0)
  }

  /** Days from 0001-01-01 to the first of January of year `y`, in the
      closed form Python's `datetime` module uses. */
  function DaysBeforeYear(y: int): int
    requires y >= 1
  {
    var p := y - 1;
    p * 365 + p / 4 - p / 100 + p / 400
  }

  lemma DaysBeforeNextMonth(y: int, m: int)
    requires 1 <= m <= 12
    ensures m < 12 ==> DaysBeforeMonth(y, m + 1) == DaysBeforeMonth(y, m) + DaysInMonth(y, m)
    ensures m == 12 ==> DaysBeforeMonth(y, m) + DaysInMonth(y, m) == DaysInYear(y)
  {
  }

  /** The closed form agrees with adding up the lengths of the years. */
  lemma DaysBeforeNextYear(y: int)
    requires y >= 1
    ensures DaysBeforeYear(y + 1) == DaysBeforeYear(y) + DaysInYear(y)
  {
    var p := y - 1;
    assert y / 4 == p / 4 + (if y % 4 == 0 then 1 else 0);
    assert y / 100 == p / 100 + (if y % 100 == 0 then 1 else 0);
    assert y / 400 == p / 400 + (if y % 400 == 0 then 1 else 0);
  }

  lemma {:induction false} DaysBeforeYearStrict(a: int, b: int)
    requires 1 <= a < b
    ensures DaysBeforeYear(a) < DaysBeforeYear(b)
    decreases b - a
  {
    DaysBeforeNextYear(a);
    if a + 1 < b {
      DaysBeforeYearStrict(a + 1, b);
    }
  }

  /** Years are ordered as the days before them are. */
  lemma DaysBeforeYearOrder(a: int, b: int)
    requires 1 <= a && 1 <= b
    ensures a <= b <==> DaysBeforeYear(a) <= DaysBeforeYear(b)
  {
    if a < b {
      DaysBeforeYearStrict(a, b);
    } else if b < a {
      DaysBeforeYearStrict(b, a);
    }
  }

  // ---------------------------------------------------------------------
  // Calendar fields

  datatype DateTime = DateTime(year: int, month: int, day: int,
                               hour: int, minute: int, second: int, microsecond: int)

  predicate ValidDate(y: int, m: int, d: int)
  {
    1 <= y <= 9999 && 1 <= m <= 12 && 1 <= d <= DaysInMonth(y, m)
  }

  predicate Valid(dt: DateTime)
  {
    && ValidDate(dt.year, dt.month, dt.day)
    && 0 <= dt.hour < 24 && 0 <= dt.minute < 60 && 0 <= dt.second < 60
    && 0 <= dt.microsecond < MicrosPerSecond
  }

  /** Days since 0001-01-01 (one less than Python's `toordinal()`). */
  function DayNumber(y: int, m: int, d: int): (n: int)
    requires ValidDate(y, m, d)
    ensures DaysBeforeYear(y) <= n < DaysBeforeYear(y + 1)
    ensures 0 <= n < DaysBeforeYear10000
  {
    DaysBeforeNextYear(y);
    DaysBeforeNextMonth(y, m);
    DaysBeforeYearOrder(y + 1, 10000);
    DaysBeforeYear(y) + DaysBeforeMonth(y, m) + d - 1
  }

  function ToInstant(dt: DateTime): (t: Instant)
    requires Valid(dt)
    ensures t % MicrosPerSecond == dt.microsecond
  {
    var n := DayNumber(dt.year, dt.month, dt.day);
    var secs := dt.hour * 3600 + dt.minute * 60 + dt.second;
    (n * SecondsPerDay + secs) * MicrosPerSecond + dt.microsecond
  }

  /** The year containing day number `n`, searching upward from `y`. */
  function FindYear(n: int, y: int): (r: int)
    requires 1 <= y && DaysBeforeYear(y) <= n
    ensures y <= r && DaysBeforeYear(r) <= n < DaysBeforeYear(r + 1)
    decreases n - DaysBeforeYear(y)
  {
    DaysBeforeNextYear(y);
    if n < DaysBeforeYear(y + 1) then y else FindYear(n, y + 1)
  }

  /** The month containing day `doy` (0-based) of year `y`, searching
      downward from `m`. */
  function FindMonth(y: int, doy: int, m: int): (r: int)
    requires 1 <= m <= 12 && 0 <= doy < DaysBeforeMonth(y, m) + DaysInMonth(y, m)
    ensures 1 <= r <= m
    ensures DaysBeforeMonth(y, r) <= doy < DaysBeforeMonth(y, r) + DaysInMonth(y, r)
    decreases m
  {
    if DaysBeforeMonth(y, m) <= doy then m
    else
      DaysBeforeNextMonth(y, m - 1);
      FindMonth(y, doy, m - 1)
  }

  /** The calendar fields of an instant, in UTC. */
  function FromInstant(t: Instant): (dt: DateTime)
    ensures Valid(dt) && ToInstant(dt) == t
    ensures DayNumber(dt.year, dt.month, dt.day) == t / MicrosPerDay
    ensures dt.hour * 3600 + dt.minute * 60 + dt.second == t % MicrosPerDay / MicrosPerSecond
    ensures dt.microsecond == t % MicrosPerSecond
  {
    var n := t / MicrosPerDay;
    var y := FindYear(n, 1);
    DaysBeforeYearOrder(10000, y);
    DaysBeforeNextYear(y);
    var doy := n - DaysBeforeYear(y);
    DaysBeforeNextMonth(y, 12);
    var m := FindMonth(y, doy, 12);
    var rem := t % MicrosPerDay;
    var secs := rem / MicrosPerSecond;
    var dt := DateTime(y, m, doy - DaysBeforeMonth(y, m) + 1,
                       secs / 3600, secs % 3600 / 60, secs % 60, rem % MicrosPerSecond);
    assert secs == dt.hour * 3600 + dt.minute * 60 + dt.second;
    assert rem == secs * MicrosPerSecond + dt.microsecond;
    assert t == n * MicrosPerDay + rem;
    dt
  }

  lemma MonthUnique(y: int, doy: int, a: int, b: int)
    requires 1 <= a <= 12 && 1 <= b <= 12
    requires DaysBeforeMonth(y, a) <= doy < DaysBeforeMonth(y, a) + DaysInMonth(y, a)
    requires DaysBeforeMonth(y, b) <= doy < DaysBeforeMonth(y, b) + DaysInMonth(y, b)
    ensures a == b
  {
  }

  /** A day number names one calendar date. */
  lemma DayNumberInjective(y1: int, m1: int, d1: int, y2: int, m2: int, d2: int)
    requires ValidDate(y1, m1, d1) && ValidDate(y2, m2, d2)
    requires DayNumber(y1, m1, d1) == DayNumber(y2, m2, d2)
    ensures y1 == y2 && m1 == m2 && d1 == d2
  {
    DaysBeforeYearOrder(y1, y2 + 1);
    DaysBeforeYearOrder(y2, y1 + 1);
    var doy := DayNumber(y1, m1, d1) - DaysBeforeYear(y1);
    MonthUnique(y1, doy, m1, m2);
  }

  lemma SplitDay(n: int, secs: int, us: int)
    requires 0 <= secs < SecondsPerDay && 0 <= us < MicrosPerSecond
    ensures (n * SecondsPerDay + secs) * MicrosPerSecond + us == n * MicrosPerDay + (secs * MicrosPerSecond + us)
    ensures ((n * SecondsPerDay + secs) * MicrosPerSecond + us) / MicrosPerDay == n
    ensures ((n * SecondsPerDay + secs) * MicrosPerSecond + us) % MicrosPerDay == secs * MicrosPerSecond + us
    ensures (secs * MicrosPerSecond + us) / MicrosPerSecond == secs
    ensures (secs * MicrosPerSecond + us) % MicrosPerSecond == us
  {
  }

  lemma SplitSeconds(h: int, m: int, s: int)
    requires 0 <= h < 24 && 0 <= m < 60 && 0 <= s < 60
    ensures (h * 3600 + m * 60 + s) / 3600 == h
    ensures (h * 3600 + m * 60 + s) % 3600 / 60 == m
    ensures (h * 3600 + m * 60 + s) % 60 == s
  {
  }

  /** Splitting an instant into calendar fields loses nothing: the fields of
      the instant of valid fields are those fields. */
  lemma FromToInstant(dt: DateTime)
    requires Valid(dt)
    ensures FromInstant(ToInstant(dt)) == dt
  {
    var t := ToInstant(dt);
    var r := FromInstant(t);
    var n := DayNumber(dt.year, dt.month, dt.day);
    var secs := dt.hour * 3600 + dt.minute * 60 + dt.second;
    SplitDay(n, secs, dt.microsecond);
    DayNumberInjective(r.year, r.month, r.day, dt.year, dt.month, dt.day);
    SplitSeconds(dt.hour, dt.minute, dt.second);
    SplitSeconds(r.hour, r.minute, r.second);
  }

  /** Two valid field sets denote the same instant only if they are equal. */
  lemma ToInstantInjective(a: DateTime, b: DateTime)
    requires Valid(a) && Valid(b)
    ensures ToInstant(a) == ToInstant(b) <==> a == b
  {
    if ToInstant(a) == ToInstant(b) {
      FromToInstant(a);
      FromToInstant(b);
    }
  }

  /** `%Y` renders four digits exactly for the instants of years 1000..9999. */
  predicate Formattable(t: Instant)
  {
    MinFormattable <= t
  }

  lemma FormattableYear(t: Instant)
    ensures Formattable(t) <==> FromInstant(t).year >= 1000
  {
    var y := FromInstant(t).year;
    var n := t / MicrosPerDay;
    assert y == FindYear(n, 1);
    DaysBeforeYearOrder(1000, y);
    DaysBeforeYearOrder(1000, y + 1);
  }

  // ---------------------------------------------------------------------
  // Rendering

  /** Six fields laid out as `YYYY-MM-DD<sep>HH:MM:SS`. */
  function Layout(y: string, mo: string, d: string, sep: char, h: string, mi: string, se: string): string
  {
    y + "-" + mo + "-" + d + [sep] + h + ":" + mi + ":" + se
  }

  lemma LayoutFields(y: string, mo: string, d: string, sep: char, h: string, mi: string, se: string)
    requires |y| == 4 && |mo| == 2 && |d| == 2 && |h| == 2 && |mi| == 2 && |se| == 2
    ensures var s := Layout(y, mo, d, sep, h, mi, se);
      && |s| == 19
      && s[..4] == y && s[5..7] == mo && s[8..10] == d
      && s[11..13] == h && s[14..16] == mi && s[17..19] == se
      && s[4] == '-' && s[7] == '-' && s[10] == sep && s[13] == ':' && s[16] == ':'
  {
  }

  /** Text with the separators in place is the layout of its own fields. */
  lemma LayoutOfFields(s: string)
    requires |s| == 19 && s[4] == '-' && s[7] == '-' && s[13] == ':' && s[16] == ':'
    ensures s == Layout(s[..4], s[5..7], s[8..10], s[10], s[11..13], s[14..16], s[17..19])
  {
    var r := Layout(s[..4], s[5..7], s[8..10], s[10], s[11..13], s[14..16], s[17..19]);
    LayoutFields(s[..4], s[5..7], s[8..10], s[10], s[11..13], s[14..16], s[17..19]);
    forall i | 0 <= i < 19 ensures r[i] == s[i] {
      if i < 4 { assert r[i] == r[..4][i]; }
      else if 5 <= i < 7 { assert r[i] == r[5..7][i - 5]; }
      else if 8 <= i < 10 { assert r[i] == r[8..10][i - 8]; }
      else if 11 <= i < 13 { assert r[i] == r[11..13][i - 11]; }
      else if 14 <= i < 16 { assert r[i] == r[14..16][i - 14]; }
      else if 17 <= i { assert r[i] == r[17..19][i - 17]; }
    }
  }

  /** The calendar fields of `dt` at their fixed widths (`%Y-%m-%d`, a
      separator, `%H:%M:%S`). */
  function Stamp(dt: DateTime, sep: char): (s: string)
    requires Valid(dt)
    ensures |s| == 19 && IsDigit(s[0])
  {
    LayoutFields(Digits(dt.year, 4), Digits(dt.month, 2), Digits(dt.day, 2), sep,
                 Digits(dt.hour, 2), Digits(dt.minute, 2), Digits(dt.second, 2));
    Layout(Digits(dt.year, 4), Digits(dt.month, 2), Digits(dt.day, 2), sep,
           Digits(dt.hour, 2), Digits(dt.minute, 2), Digits(dt.second, 2))
  }

  /** Equal stamps come from equal calendar fields (microseconds aside). */
  lemma StampInjective(a: DateTime, b: DateTime, sep: char)
    requires Valid(a) && Valid(b) && Stamp(a, sep) == Stamp(b, sep)
    ensures a.(microsecond := 0) == b.(microsecond := 0)
  {
    LayoutFields(Digits(a.year, 4), Digits(a.month, 2), Digits(a.day, 2), sep,
                 Digits(a.hour, 2), Digits(a.minute, 2), Digits(a.second, 2));
    LayoutFields(Digits(b.year, 4), Digits(b.month, 2), Digits(b.day, 2), sep,
                 Digits(b.hour, 2), Digits(b.minute, 2), Digits(b.second, 2));
    DigitsInjective(a.year, b.year, 4);
    DigitsInjective(a.month, b.month, 2);
    DigitsInjective(a.day, b.day, 2);
    DigitsInjective(a.hour, b.hour, 2);
    DigitsInjective(a.minute, b.minute, 2);
    DigitsInjective(a.second, b.second, 2);
  }

  /** `strftime("%Y-%m-%dT%H:%M:%S.000Z")`: whole seconds only, then a
      literal `.000Z`, whatever the sub-second part is. */
  function FormatTimestamp(t: Instant): (s: string)
    requires Formattable(t)
    ensures |s| == 24 && s[19..] == ".000Z"
  {
    FormattableYear(t);
    Stamp(FromInstant(t), 'T') + ".000Z"
  }

  /** `strftime("%Y-%m-%d")`: the calendar date alone. */
  function FormatDay(t: Instant): (s: string)
    requires Formattable(t)
    ensures |s| == 10
    ensures s == FormatTimestamp(t)[..10]
  {
    var dt := FromInstant(t);
    FormattableYear(t);
    Digits(dt.year, 4) + "-" + Digits(dt.month, 2) + "-" + Digits(dt.day, 2)
  }

  /** `str()` of a UTC-aware datetime (`isoformat(" ")`): the microseconds
      appear only when they are not zero. */
  function IsoString(t: Instant): (s: string)
    ensures |s| == if t % MicrosPerSecond == 0 then 25 else 32
    ensures s[|s| - 6..] == "+00:00"
    ensures s[..19] == Stamp(FromInstant(t), ' ') && IsDigit(s[0])
    ensures s[19] == if t % MicrosPerSecond == 0 then '+' else '.'
  {
    var dt := FromInstant(t);
    Stamp(dt, ' ')
    + (if dt.microsecond == 0 then "" else "." + Digits(dt.microsecond, 6))
    + "+00:00"
  }

  // ---------------------------------------------------------------------
  // Reading a rendering back

  /** Reads text of the shape `FormatTimestamp` produces back into the
      instant it names; `None` for any other text. */
  function ParseTimestamp(s: string): Option<Instant>
  {
    if |s| == 24 && s[4] == '-' && s[7] == '-' && s[10] == 'T' && s[13] == ':' && s[16] == ':'
       && s[19..] == ".000Z"
       && AllDigits(s[..4]) && AllDigits(s[5..7]) && AllDigits(s[8..10])
       && AllDigits(s[11..13]) && AllDigits(s[14..16]) && AllDigits(s[17..19])
    then
      var dt := DateTime(DigitsValue(s[..4]), DigitsValue(s[5..7]), DigitsValue(s[8..10]),
                         DigitsValue(s[11..13]), DigitsValue(s[14..16]), DigitsValue(s[17..19]), 0);
      if Valid(dt) && dt.year >= 1000 then Some(ToInstant(dt)) else None
    else None
  }

  /** Where each calendar field sits in a `FormatTimestamp` rendering. */
  lemma FormatTimestampLayout(t: Instant)
    requires Formattable(t)
    ensures var s, dt := FormatTimestamp(t), FromInstant(t);
      && 1000 <= dt.year
      && s[..4] == Digits(dt.year, 4) && s[5..7] == Digits(dt.month, 2)
      && s[8..10] == Digits(dt.day, 2) && s[11..13] == Digits(dt.hour, 2)
      && s[14..16] == Digits(dt.minute, 2) && s[17..19] == Digits(dt.second, 2)
      && s[4] == '-' && s[7] == '-' && s[10] == 'T' && s[13] == ':' && s[16] == ':'
  {
    FormattableYear(t);
    var dt := FromInstant(t);
    LayoutFields(Digits(dt.year, 4), Digits(dt.month, 2), Digits(dt.day, 2), 'T',
                 Digits(dt.hour, 2), Digits(dt.minute, 2), Digits(dt.second, 2));
    var s := FormatTimestamp(t);
    assert s[..19] == Stamp(dt, 'T');
  }

  /** Rendering then reading back recovers the instant truncated to the
      whole second: the query text drops exactly the sub-second part. */
  lemma TimestampRoundTrip(t: Instant)
    requires Formattable(t)
    ensures ParseTimestamp(FormatTimestamp(t)) == Some(t - t % MicrosPerSecond)
  {
    var s, dt := FormatTimestamp(t), FromInstant(t);
    FormatTimestampLayout(t);
    DigitsRoundTrip(dt.year, 4);
    DigitsRoundTrip(dt.month, 2);
    DigitsRoundTrip(dt.day, 2);
    DigitsRoundTrip(dt.hour, 2);
    DigitsRoundTrip(dt.minute, 2);
    DigitsRoundTrip(dt.second, 2);
    var whole := dt.(microsecond := 0);
    assert whole == DateTime(DigitsValue(s[..4]), DigitsValue(s[5..7]), DigitsValue(s[8..10]),
                             DigitsValue(s[11..13]), DigitsValue(s[14..16]), DigitsValue(s[17..19]), 0);
    assert Valid(whole);
    assert ToInstant(whole) == t - t % MicrosPerSecond;
  }

  /** Whatever text reads back as an instant is exactly that instant's
      rendering: the rendering is the only text naming it. */
  lemma ParsedTimestampRendersBack(s: string)
    ensures ParseTimestamp(s).Some? ==> FormatTimestamp(ParseTimestamp(s).value) == s
  {
    if ParseTimestamp(s).Some? {
      var t := ParseTimestamp(s).value;
      var dt := DateTime(DigitsValue(s[..4]), DigitsValue(s[5..7]), DigitsValue(s[8..10]),
                         DigitsValue(s[11..13]), DigitsValue(s[14..16]), DigitsValue(s[17..19]), 0);
      assert t == ToInstant(dt);
      FromToInstant(dt);
      ValueDigitsRoundTrip(s[..4]);
      ValueDigitsRoundTrip(s[5..7]);
      ValueDigitsRoundTrip(s[8..10]);
      ValueDigitsRoundTrip(s[11..13]);
      ValueDigitsRoundTrip(s[14..16]);
      ValueDigitsRoundTrip(s[17..19]);
      LayoutOfFields(s[..19]);
      assert s[..19][..4] == s[..4] && s[..19][5..7] == s[5..7] && s[..19][8..10] == s[8..10];
      assert s[..19][11..13] == s[11..13] && s[..19][14..16] == s[14..16] && s[..19][17..19] == s[17..19];
      assert Stamp(dt, 'T') == s[..19];
      assert s == s[..19] + s[19..];
    }
  }

  /** `str()` of two instants is the same text only for the same instant. */
  lemma IsoStringInjective(a: Instant, b: Instant)
    ensures IsoString(a) == IsoString(b) <==> a == b
  {
    if IsoString(a) == IsoString(b) {
      var s, da, db := IsoString(a), FromInstant(a), FromInstant(b);
      assert s[..19] == Stamp(da, ' ') == Stamp(db, ' ');
      StampInjective(da, db, ' ');
      if da.microsecond != 0 {
        assert s[20..26] == Digits(da.microsecond, 6) == Digits(db.microsecond, 6);
        DigitsInjective(da.microsecond, db.microsecond, 6);
      }
      assert da == db;
    }
  }
}
