/** Time as the app sees it. A clock reading is an `Instant` (milliseconds since
    1970-01-01T00:00:00Z, what `Date.now()` returns); a ledger key is a `Day`,
    counted from 1970-01-01. The key `"YYYY-MM-DD"` that `toISOString().split('T')[0]`
    produces names exactly one such day, and `new Date("YYYY-MM-DD")` parses back to
    its midnight (UTC). */
module Calendar {
  type Instant = int
  type Day = int

  const MsPerDay: int := 24 * 60 * 60 * 1000

  /** The UTC date of an instant: the key `toISOString().split('T')[0]` yields. */
  function DayOf(t: Instant): (d: Day)
    ensures d * MsPerDay <= t < (d + 1) * MsPerDay
  {
    t / MsPerDay
  }

  /** The instant `new Date("YYYY-MM-DD")` returns for a day key: its UTC midnight. */
  function MidnightOf(d: Day): Instant
  {
    d * MsPerDay
  }

  /** The year of the 400-year era that day `doe` of the era falls in. */
  function YearOfEra(doe: int): (yoe: int)
    requires 0 <= doe < 146097
    ensures 0 <= yoe <= 399
  {
    (doe - doe / 1460 + doe / 36524 - doe / 146096) / 365
  }

  /** Day `doe` of the era falls on day 0 to 365 of its year: split into c centuries,
      b four-year cycles and a remainder s, the year is 100c + 4b + s/365 (at most 3)
      and the day of the year what is left of s. */
  lemma DayOfYearBounds(doe: int)
    requires 0 <= doe < 146097
    ensures var yoe := YearOfEra(doe); 0 <= doe - (365 * yoe + yoe / 4 - yoe / 100) <= 365
  {
    if doe == 146096 {
      assert YearOfEra(doe) == 399;
    } else {
      var c := doe / 36524;
      var r := doe - 36524 * c;
      var b := r / 1461;
      var s := r - 1461 * b;
      assert 0 <= c <= 3 && 0 <= b <= 24 && 0 <= s <= 1460;
      var delta := if 24 * c + b + s >= 1460 then 1 else 0;
      assert doe / 1460 == 25 * c + b + delta;
      assert doe / 146096 == 0;
      var y1 := (s - delta) / 365;
      assert 0 <= y1 <= 3;
      assert YearOfEra(doe) == 100 * c + 4 * b + y1;
      var yoe := YearOfEra(doe);
      assert yoe / 4 == 25 * c + b;
      assert yoe / 100 == c;
    }
  }

  /** The day of the year (counted from 1 March) of day `doe` of the era. */
  function DayOfYear(doe: int): (doy: int)
    requires 0 <= doe < 146097
    ensures 0 <= doy <= 365
  {
    DayOfYearBounds(doe);
    var yoe := YearOfEra(doe);
    doe - (365 * yoe + yoe / 4 - yoe / 100)
  }

  /** The month (counted from March as 0) and the day of month of day `doy` of the year. */
  function MonthAndDay(doy: int): (r: (int, int))
    requires 0 <= doy <= 365
    ensures 0 <= r.0 <= 11 && 1 <= r.1 <= 31
  {
    var mp := (5 * doy + 2) / 153;
    (mp, doy - (153 * mp + 2) / 5 + 1)
  }

  /** The proleptic Gregorian (year, month 1..12, day of month 1..31) of a day number. */
  function CivilFromDays(days: Day): (r: (int, int, int))
    ensures 1 <= r.1 <= 12
    ensures 1 <= r.2 <= 31
  {
    var z := days + 719468;
    var era := z / 146097;
    var doe := z - era * 146097;
    var yoe := YearOfEra(doe);
    var (mp, dom) := MonthAndDay(DayOfYear(doe));
    var month := if mp < 10 then mp + 3 else mp - 9;
    var year := yoe + era * 400 + (if month <= 2 then 1 else 0);
    (year, month, dom)
  }

  /** `getFullYear()` of a day. */
  function YearOf(d: Day): int { CivilFromDays(d).0 }

  /** `getMonth()` of a day, counted from 1 rather than 0. */
  function MonthOf(d: Day): (m: int)
    ensures 1 <= m <= 12
  {
    CivilFromDays(d).1
  }

  /** Day 0 is 1 January 1970. */
  lemma Epoch()
    ensures CivilFromDays(0) == (1970, 1, 1)
  {
    assert (0 + 719468) / 146097 == 4;
    assert (5 * 306 + 2) / 153 == 10;
    assert (135080 - 135080 / 1460 + 135080 / 36524 - 135080 / 146096) / 365 == 369;
  }

  /** Day 19783 is 1 March 2024 (2024 is a leap year). */
  lemma FirstOfMarch2024()
    ensures CivilFromDays(19783) == (2024, 3, 1)
  {
    assert (19783 + 719468) / 146097 == 5;
    assert (5 * 0 + 2) / 153 == 0;
    assert (8766 - 8766 / 1460 + 8766 / 36524 - 8766 / 146096) / 365 == 24;
  }

  /** Day 19797 is 15 March 2024. */
  lemma IdesOfMarch2024()
    ensures CivilFromDays(19797) == (2024, 3, 15)
  {
    assert (19797 + 719468) / 146097 == 5;
    assert (5 * 14 + 2) / 153 == 0;
    assert (8780 - 8780 / 1460 + 8780 / 36524 - 8780 / 146096) / 365 == 24;
  }

  /** Day 19814 is 1 April 2024. */
  lemma FirstOfApril2024()
    ensures CivilFromDays(19814) == (2024, 4, 1)
  {
    assert (19814 + 719468) / 146097 == 5;
    assert (5 * 31 + 2) / 153 == 1;
    assert (8797 - 8797 / 1460 + 8797 / 36524 - 8797 / 146096) / 365 == 24;
  }
}
