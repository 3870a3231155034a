/** The URL builder: resolution code, forecast kind and date to the OPeNDAP
    endpoint of the NOMADS GFS run of that day. */
module DataUrl {
  import opened Wrappers
  import opened Digits
  import opened Calendar
  import opened Forecast
  import opened Strings

  const Host: string := "https://nomads.ncep.noaa.gov/dods/"

  /** The endpoint for `resolution`, `forecast` and the day `date` (the program
      takes today's date from the clock). Only the two recognised kinds bind a
      URL; any other leaves it unbound and the program fails when it logs it. */
  function Url(resolution: string, forecast: string, date: CalendarDate): (u: string)
    requires Recognised(forecast)
    ensures |u| > |Host| && u[..|Host|] == Host && u[|u| - 1] == 'z'
  {
    var res := resolution;
    var stamp := Compact(date);
    if forecast == "temperature" then
      var step, hour := "_1hr", 6;
      var gfs := Host + "gfs_" + res + step;
      gfs + "/gfs" + stamp + "/gfs_" + res + step + "_" + ZeroPad(hour, 2) + "z"
    else
      var hour := 0;
      var gfs := Host + "gfs_" + res;
      gfs + "/gfs" + stamp + "/gfs_" + res + "_" + ZeroPad(hour, 2) + "z"
  }

  /** What lies between the first resolution and the date stamp: the kind's
      step segment, then `/gfs`. */
  function UrlMiddle(k: Kind): string {
    ProfileOf(k).step + "/gfs"
  }

  /** What follows the second resolution: the kind's step segment, then its
      hour in two digits between `_` and `z`. */
  function UrlEnd(k: Kind): string {
    ProfileOf(k).step + "_" + ZeroPad(ProfileOf(k).hour, 2) + "z"
  }

  /** The middle and end of each kind's URL, spelled out. */
  lemma KindPieces(k: Kind)
    ensures UrlMiddle(k) == if k == Temperature then "_1hr/gfs" else "/gfs"
    ensures UrlEnd(k) == if k == Temperature then "_1hr_06z" else "_00z"
  {
    HourStamps();
    if k == Temperature {
      assert "_1hr" + "_" + "06" + "z" == "_1hr_06z";
    } else {
      assert "" + "/gfs" == "/gfs";
      assert "" + "_" + "00" + "z" == "_00z";
    }
  }

  /** The temperature branch regrouped, over abstract parts. */
  lemma TemperatureShape(g: string, stamp: string, res: string, pad: string)
    requires pad == "06"
    ensures g + "_1hr" + "/gfs" + stamp + "/gfs_" + res + "_1hr" + "_" + pad + "z"
         == g + "_1hr/gfs" + stamp + "/gfs_" + res + "_1hr_06z"
  {
    Regroup3(g, "_1hr", "/gfs");
    assert "_1hr" + "/gfs" == "_1hr/gfs";
    var q := g + "_1hr/gfs" + stamp + "/gfs_" + res;
    Regroup5(q, "_1hr", "_", pad, "z");
    assert "_1hr" + "_" + "06" + "z" == "_1hr_06z";
  }

  /** The precipitation branch regrouped, over abstract parts. */
  lemma PrecipitationShape(q: string, pad: string)
    requires pad == "00"
    ensures q + "_" + pad + "z" == q + "_00z"
  {
    Regroup3(q, "_" + pad, "z");
    Regroup3(q, "_", pad);
    assert "_" + "00" + "z" == "_00z";
  }

  /** The URL of either kind: host, `gfs_`, resolution, the kind's middle, the
      date stamp, `/gfs_`, resolution and the kind's end. */
  lemma UrlShape(resolution: string, k: Kind, date: CalendarDate)
    ensures Url(resolution, Name(k), date)
         == Host + "gfs_" + resolution + UrlMiddle(k) + Compact(date) + "/gfs_" + resolution + UrlEnd(k)
  {
    HourStamps();
    KindPieces(k);
    if k == Temperature {
      TemperatureShape(Host + "gfs_" + resolution, Compact(date), resolution, ZeroPad(6, 2));
    } else {
      PrecipitationShape(Host + "gfs_" + resolution + "/gfs" + Compact(date) + "/gfs_" + resolution, ZeroPad(0, 2));
    }
  }

  /** Temperature: the hourly-step (`_1hr`) dataset of the 06z run. */
  lemma UrlTemperature(resolution: string, date: CalendarDate)
    ensures Url(resolution, "temperature", date)
         == Host + "gfs_" + resolution + "_1hr/gfs" + Compact(date) + "/gfs_" + resolution + "_1hr_06z"
  {
    UrlShape(resolution, Temperature, date);
  }

  /** Precipitation: no step segment, the 00z run. */
  lemma UrlPrecipitation(resolution: string, date: CalendarDate)
    ensures Url(resolution, "precipitation", date)
         == Host + "gfs_" + resolution + "/gfs" + Compact(date) + "/gfs_" + resolution + "_00z"
  {
    UrlShape(resolution, Precipitation, date);
  }

  /** The URL as eight pieces, each at its offset. */
  lemma UrlPieces(resolution: string, k: Kind, date: CalendarDate)
    ensures var u, m, e, stamp := Url(resolution, Name(k), date), UrlMiddle(k), UrlEnd(k), Compact(date);
            var x := Host + "gfs_" + resolution + m + stamp + "/gfs_" + resolution;
            u == x + e && |u| == |Host| + 4 + |resolution| + |m| + 8 + 5 + |resolution| + |e|
            && u[|Host| + 4..|Host| + 4 + |resolution|] == resolution
            && u[|Host| + 4 + |resolution| + |m|..|Host| + 4 + |resolution| + |m| + 8] == stamp
  {
    UrlShape(resolution, k, date);
    Pieces8(Host, "gfs_", resolution, UrlMiddle(k), Compact(date), "/gfs_", resolution, UrlEnd(k));
  }

  /** Where the date stamp starts in a URL: after the host, `gfs_`, the
      resolution, the step segment and `/gfs`. */
  function DateOffset(resolution: string, k: Kind): nat {
    |Host| + 4 + |resolution| + |ProfileOf(k).step| + 4
  }

  /** The eight characters at the date offset are the `YYYYMMDD` stamp of the
      date, and they read back as that date. */
  lemma UrlDateStamp(resolution: string, k: Kind, date: CalendarDate)
    ensures var u, o := Url(resolution, Name(k), date), DateOffset(resolution, k);
            o + 8 <= |u| && u[o..o + 8] == Compact(date) && ParseCompact(u[o..o + 8]) == Some(date)
  {
    UrlPieces(resolution, k, date);
    assert |UrlMiddle(k)| == |ProfileOf(k).step| + 4;
    CompactRoundTrip(date);
  }

  /** The hour tag and its digits at the end of each kind's URL end. */
  lemma EndTag(k: Kind)
    ensures var e := UrlEnd(k);
            |e| >= 4 && e[|e| - 4..] == (if k == Temperature then "_06z" else "_00z")
            && e[|e| - 3..|e| - 1] == (if k == Temperature then "06" else "00")
  {
    KindPieces(k);
  }

  /** The URL ends with the kind's hour stamp: `_06z` or `_00z`. */
  lemma UrlHourStamp(resolution: string, k: Kind, date: CalendarDate)
    ensures var u := Url(resolution, Name(k), date);
            |u| >= 4 && u[|u| - 4..] == if k == Temperature then "_06z" else "_00z"
  {
    UrlShape(resolution, k, date);
    EndTag(k);
    var x := Host + "gfs_" + resolution + UrlMiddle(k) + Compact(date) + "/gfs_" + resolution;
    EndSlices(Url(resolution, Name(k), date), x, UrlEnd(k));
  }

  /** The URL's hour digits: the middle two characters of its `_06z` or `_00z` end. */
  lemma UrlHourDigits(resolution: string, k: Kind, date: CalendarDate)
    ensures var u := Url(resolution, Name(k), date);
            |u| >= 4 && u[|u| - 3..|u| - 1] == if k == Temperature then "06" else "00"
  {
    UrlShape(resolution, k, date);
    EndTag(k);
    var x := Host + "gfs_" + resolution + UrlMiddle(k) + Compact(date) + "/gfs_" + resolution;
    EndSlices(Url(resolution, Name(k), date), x, UrlEnd(k));
  }

  /** For one kind, the URL determines the resolution and the date. */
  lemma UrlInjectiveForKind(r1: string, d1: CalendarDate, r2: string, d2: CalendarDate, k: Kind)
    requires Url(r1, Name(k), d1) == Url(r2, Name(k), d2)
    ensures r1 == r2 && d1 == d2
  {
    UrlShape(r1, k, d1);
    UrlShape(r2, k, d2);
    SameTemplate(Host + "gfs_", r1, Compact(d1), r2, Compact(d2), UrlMiddle(k), "/gfs_", UrlEnd(k));
    CompactInjective(d1, d2);
  }

  /** Different inputs give different URLs: the URL determines the resolution,
      the kind and the date it was built from. */
  lemma UrlInjective(r1: string, f1: string, d1: CalendarDate, r2: string, f2: string, d2: CalendarDate)
    requires Recognised(f1) && Recognised(f2)
    requires Url(r1, f1, d1) == Url(r2, f2, d2)
    ensures r1 == r2 && f1 == f2 && d1 == d2
  {
    var k1, k2 := ParseKind(f1).value, ParseKind(f2).value;
    UrlHourDigits(r1, k1, d1);
    UrlHourDigits(r2, k2, d2);
    assert "06"[1] != "00"[1];
    UrlInjectiveForKind(r1, d1, r2, d2, k1);
  }
}
