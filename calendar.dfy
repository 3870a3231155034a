/** Calendar dates as Python's `datetime.date` holds them, and the two ways the
    program renders one: `strftime("%Y%m%d")` in the data URL and numpy's
    `datetime_as_string(unit="D")` in raster names. */
module Calendar {
  import opened Wrappers
  import opened Digits
  import opened Strings

  datatype Date = Date(year: int, month: int, day: int)

  predicate IsLeapYear(y: int) {
    y % 4 == 0 && (y % 100 != 0 || y % 400 == 0)
  }

  function DaysInMonth(y: int, m: int): int
    requires 1 <= m <= 12
  {
    if m == 2 then (if IsLeapYear(y) then 29 else 28)
    else if m == 4 || m == 6 || m == 9 || m == 11 then 30
    else 31
  }

  /** The range `datetime.date` accepts: years 1 to 9999, a real day of a real month. */
  predicate Valid(d: Date) {
    1 <= d.year <= 9999 && 1 <= d.month <= 12 && 1 <= d.day <= DaysInMonth(d.year, d.month)
  }

  type CalendarDate = d: Date | Valid(d) witness Date(2023, 2, 6)

  lemma FieldWidths(d: CalendarDate)
    ensures |ZeroPad(d.year, 4)| == 4 && |ZeroPad(d.month, 2)| == 2 && |ZeroPad(d.day, 2)| == 2
  {
    ZeroPadWidth(d.year, 4);
    ZeroPadWidth(d.month, 2);
    ZeroPadWidth(d.day, 2);
  }

  /** `date.strftime("%Y%m%d")`: eight digits, year then month then day. */
  function Compact(d: CalendarDate): (s: string)
    ensures |s| == 8 && AllDigits(s)
  {
    FieldWidths(d);
    ZeroPad(d.year, 4) + ZeroPad(d.month, 2) + ZeroPad(d.day, 2)
  }

  /** `numpy.datetime_as_string(t, unit="D")`: `YYYY-MM-DD`. */
  function Iso(d: CalendarDate): (s: string)
    ensures |s| == 10 && s[4] == '-' && s[7] == '-'
  {
    FieldWidths(d);
    ZeroPad(d.year, 4) + "-" + ZeroPad(d.month, 2) + "-" + ZeroPad(d.day, 2)
  }

  /** Reads back an eight-digit `YYYYMMDD` stamp; None when it is not one of a real date. */
  function ParseCompact(s: string): (r: Option<CalendarDate>)
    ensures r.Some? ==> |s| == 8 && AllDigits(s)
  {
    if |s| == 8 && AllDigits(s) then
      assert AllDigits(s[..4]) && AllDigits(s[4..6]) && AllDigits(s[6..]);
      var d := Date(Value(s[..4]), Value(s[4..6]), Value(s[6..]));
      if Valid(d) then Some(d) else None
    else None
  }

  /** `YYYY-MM-DD` with the dashes taken out. */
  function Undash(s: string): (c: string)
    requires |s| == 10
    ensures |c| == 8
  {
    s[..4] + s[5..7] + s[8..]
  }

  /** Reads back a `YYYY-MM-DD` stamp. */
  function ParseIso(s: string): (r: Option<CalendarDate>)
    ensures r.Some? ==> |s| == 10 && s[4] == '-' && s[7] == '-'
  {
    if |s| == 10 && s[4] == '-' && s[7] == '-' then ParseCompact(Undash(s)) else None
  }

  /** The three fields of the compact stamp, at positions 0, 4 and 6. */
  lemma CompactFields(d: CalendarDate)
    ensures var c := Compact(d);
            c[..4] == ZeroPad(d.year, 4) && c[4..6] == ZeroPad(d.month, 2) && c[6..] == ZeroPad(d.day, 2)
  {
    FieldWidths(d);
    PieceAt(ZeroPad(d.year, 4), ZeroPad(d.month, 2), ZeroPad(d.day, 2));
  }

  /** The three fields of the ISO stamp, at positions 0, 5 and 8. */
  lemma IsoFields(d: CalendarDate)
    ensures var i := Iso(d);
            i[..4] == ZeroPad(d.year, 4) && i[5..7] == ZeroPad(d.month, 2) && i[8..] == ZeroPad(d.day, 2)
  {
    FieldWidths(d);
    var y, m, dd := ZeroPad(d.year, 4), ZeroPad(d.month, 2), ZeroPad(d.day, 2);
    Regroup5(y, "-", m, "-", dd);
    PieceAt(y, "-", m + "-" + dd);
    PieceAt(y + "-", m, "-" + dd);
    Regroup3(y + "-" + m, "-", dd);
    PieceAt(y + "-" + m, "-", dd);
  }

  /** The URL's date stamp names the date it was built from. */
  lemma CompactRoundTrip(d: CalendarDate)
    ensures ParseCompact(Compact(d)) == Some(d)
  {
    CompactFields(d);
  }

  /** The ISO stamp is the compact stamp with dashes after the year and the month. */
  lemma IsoIsDashedCompact(d: CalendarDate)
    ensures Undash(Iso(d)) == Compact(d)
    ensures Iso(d) == Compact(d)[..4] + "-" + Compact(d)[4..6] + "-" + Compact(d)[6..]
  {
    CompactFields(d);
    IsoFields(d);
  }

  /** A raster's date stamp names the date it was written for. */
  lemma IsoRoundTrip(d: CalendarDate)
    ensures ParseIso(Iso(d)) == Some(d)
  {
    IsoIsDashedCompact(d);
    CompactRoundTrip(d);
  }

  lemma CompactInjective(d1: CalendarDate, d2: CalendarDate)
    requires Compact(d1) == Compact(d2)
    ensures d1 == d2
  {
    CompactRoundTrip(d1);
    CompactRoundTrip(d2);
  }

  lemma IsoInjective(d1: CalendarDate, d2: CalendarDate)
    requires Iso(d1) == Iso(d2)
    ensures d1 == d2
  {
    IsoRoundTrip(d1);
    IsoRoundTrip(d2);
  }

  /** Concrete stamps for 6 February 2023. */
  lemma StampExample(d: CalendarDate)
    requires d == Date(2023, 2, 6)
    ensures Compact(d) == "20230206" && Iso(d) == "2023-02-06"
  {
    YearExample(d.year);
    DayExample(d.month, 2);
    DayExample(d.day, 6);
  }

  /** The year 2023 in four digits. */
  lemma YearExample(y: nat)
    requires y == 2023
    ensures ZeroPad(y, 4) == "2023"
  {
    assert Decimal(20) == "20" by { assert DigitChar(2) == '2' && DigitChar(0) == '0'; }
    assert Decimal(202) == "202" by { assert DigitChar(2) == '2'; }
    assert Decimal(2023) == "2023" by { assert DigitChar(3) == '3'; }
  }

  /** A one-digit month or day, padded to two. */
  lemma DayExample(n: nat, digit: nat)
    requires n == digit && 1 <= digit <= 9
    ensures ZeroPad(n, 2) == ['0', DigitChar(digit)]
  {
    assert Decimal(n) == [DigitChar(digit)];
    assert Zeros(1) == "0";
  }
}
