/** The raster step: the hour each kind is stamped with, the name of each
    daily GeoTIFF, and the loop over the days of the resampled forecast. */
module Rasters {
  import opened Wrappers
  import opened Digits
  import opened Calendar
  import opened Forecast
  import opened DataUrl
  import opened Strings

  /** The nominal hour the raster step stamps on file names. It is chosen
      separately from the URL builder's hour; any other kind leaves it unbound. */
  function RasterHour(forecast: string): (h: nat)
    requires Recognised(forecast)
    ensures h == ProfileOf(ParseKind(forecast).value).hour
  {
    if forecast == "temperature" then 6
    else 0
  }

  /** `{forecast}_gfs_{YYYY-MM-DD}_{resolution}_{hh}z.tif`. */
  function TifName(forecast: string, date: CalendarDate, resolution: string): (t: string)
    requires Recognised(forecast)
    ensures |t| > |forecast| + 5 && t[..|forecast|] == forecast && t[|t| - 5..] == "z.tif"
  {
    forecast + "_gfs_" + Iso(date) + "_" + resolution + "_" + ZeroPad(RasterHour(forecast), 2) + "z.tif"
  }

  /** What a raster name records. */
  datatype TifFields = TifFields(forecast: string, date: CalendarDate, resolution: string)

  /** The kind a raster name starts with, or "" when it starts with neither. */
  function KindPrefix(n: string): (forecast: string)
    ensures forecast == "" || (Recognised(forecast) && forecast <= n)
  {
    if "temperature" <= n then "temperature"
    else if "precipitation" <= n then "precipitation"
    else ""
  }

  /** Reads the kind, date and resolution back from a raster name. The kind is
      recognised by its prefix and the resolution is what lies between the date
      and the hour, so a resolution holding `_` still reads back. */
  function ParseTifName(n: string): (r: Option<TifFields>)
    ensures r.Some? ==> Recognised(r.value.forecast)
    ensures r.Some? ==> n == TifName(r.value.forecast, r.value.date, r.value.resolution)
  {
    var forecast := KindPrefix(n);
    var p := |forecast|;
    if forecast == "" || |n| < p + 24 || n[p..p + 5] != "_gfs_" || n[p + 15] != '_' then None
    else
      match ParseIso(n[p + 5..p + 15])
      case None => None
      case Some(d) =>
        var resolution := n[p + 16..|n| - 8];
        if n == TifName(forecast, d, resolution) then Some(TifFields(forecast, d, resolution)) else None
  }

  /** The raster name as eight pieces, each at its offset. */
  lemma TifPieces(forecast: string, date: CalendarDate, resolution: string)
    requires Recognised(forecast)
    ensures var t, p, pad := TifName(forecast, date, resolution), |forecast|, ZeroPad(RasterHour(forecast), 2);
            |pad| == 2 && |t| == p + 24 + |resolution|
            && t[..p] == forecast && t[p..p + 5] == "_gfs_" && t[p + 5..p + 15] == Iso(date)
            && t[p + 15..p + 16] == "_" && t[p + 16..|t| - 8] == resolution
            && t[|t| - 7..|t| - 5] == pad
  {
    ZeroPadWidth(RasterHour(forecast), 2);
    TifTemplate(forecast, Iso(date), resolution, ZeroPad(RasterHour(forecast), 2));
  }

  /** The pieces of a raster name, over abstract parts. */
  lemma TifTemplate(forecast: string, iso: string, resolution: string, pad: string)
    requires |iso| == 10 && |pad| == 2
    ensures var t, p := forecast + "_gfs_" + iso + "_" + resolution + "_" + pad + "z.tif", |forecast|;
            |t| == p + 24 + |resolution|
            && t[..p] == forecast && t[p..p + 5] == "_gfs_" && t[p + 5..p + 15] == iso
            && t[p + 15..p + 16] == "_" && t[p + 16..|t| - 8] == resolution
            && t[|t| - 7..|t| - 5] == pad
  {
    Pieces8(forecast, "_gfs_", iso, "_", resolution, "_", pad, "z.tif");
  }

  lemma KindPrefixOf(forecast: string, date: CalendarDate, resolution: string)
    requires Recognised(forecast)
    ensures KindPrefix(TifName(forecast, date, resolution)) == forecast
  {
    TifPieces(forecast, date, resolution);
    var t := TifName(forecast, date, resolution);
    assert forecast <= t;
    if forecast == "precipitation" {
      assert t[0] == 'p' != "temperature"[0];
    }
  }

  /** A raster name reads back as the kind, date and resolution it was made from. */
  lemma TifNameRoundTrip(forecast: string, date: CalendarDate, resolution: string)
    requires Recognised(forecast)
    ensures ParseTifName(TifName(forecast, date, resolution)) == Some(TifFields(forecast, date, resolution))
  {
    TifPieces(forecast, date, resolution);
    KindPrefixOf(forecast, date, resolution);
    var t, p := TifName(forecast, date, resolution), |forecast|;
    assert t[p + 15] == t[p + 15..p + 16][0] == '_';
    IsoRoundTrip(date);
  }

  /** No two different (kind, date, resolution) triples share a raster name, so
      distinct days never overwrite each other's file. */
  lemma TifNameInjective(f1: string, d1: CalendarDate, r1: string, f2: string, d2: CalendarDate, r2: string)
    requires Recognised(f1) && Recognised(f2)
    requires TifName(f1, d1, r1) == TifName(f2, d2, r2)
    ensures f1 == f2 && d1 == d2 && r1 == r2
  {
    TifNameRoundTrip(f1, d1, r1);
    TifNameRoundTrip(f2, d2, r2);
  }

  /** A raster name ends with the kind's hour in two digits, then `z.tif`. */
  lemma TifHourStamp(forecast: string, date: CalendarDate, resolution: string)
    requires Recognised(forecast)
    ensures var t := TifName(forecast, date, resolution);
            |t| >= 7 && t[|t| - 7..|t| - 5] == ZeroPad(RasterHour(forecast), 2)
  {
    TifPieces(forecast, date, resolution);
  }

  /** The hour in a raster name is the hour of the run the URL fetched: the two
      digits before `z` agree, `06` for temperature and `00` for precipitation. */
  lemma RasterHourMatchesUrl(resolution: string, forecast: string, date: CalendarDate)
    requires Recognised(forecast)
    ensures var u, t := Url(resolution, forecast, date), TifName(forecast, date, resolution);
            |u| >= 4 && |t| >= 7 && u[|u| - 3..|u| - 1] == t[|t| - 7..|t| - 5]
            && t[|t| - 7..|t| - 5] == (if forecast == "temperature" then "06" else "00")
  {
    var k := ParseKind(forecast).value;
    UrlHourDigits(resolution, k, date);
    TifHourStamp(forecast, date, resolution);
    HourStamp(k);
  }

  /** For the same date, the raster name and the URL carry the same day: the
      raster's ISO stamp with the dashes removed is the URL's `YYYYMMDD` stamp. */
  lemma RasterDateMatchesUrl(resolution: string, forecast: string, date: CalendarDate)
    requires Recognised(forecast)
    ensures var u, t := Url(resolution, forecast, date), TifName(forecast, date, resolution);
            var o, p := DateOffset(resolution, ParseKind(forecast).value), |forecast| + 5;
            o + 8 <= |u| && p + 10 <= |t| && Undash(t[p..p + 10]) == u[o..o + 8]
  {
    UrlDateStamp(resolution, ParseKind(forecast).value, date);
    TifPieces(forecast, date, resolution);
    IsoIsDashedCompact(date);
  }

  /** One write of the raster step: the time index it selects and the file it writes. */
  datatype RasterWrite = RasterWrite(timeIndex: nat, name: string)

  /** The day loop as written: it walks the resampled days, selects time index
      `count` and writes that day's raster, then leaves the loop unconditionally,
      so at most the first day is ever written. */
  method DataTif(forecast: string, resolution: string, days: seq<CalendarDate>) returns (writes: seq<RasterWrite>)
    requires Recognised(forecast)
    ensures |writes| == if days == [] then 0 else 1
    ensures forall i :: 0 <= i < |writes| ==> writes[i] == RasterWrite(i, TifName(forecast, days[i], resolution))
  {
    writes := [];
    for count := 0 to |days|
      // the unconditional break means no iteration ever completes
      invariant count == 0 && writes == []
    {
      writes := writes + [RasterWrite(count, TifName(forecast, days[count], resolution))];
      break;
    }
  }

  /** On two distinct days, the loop as written writes one raster and never the
      second day's. */
  method TruncationWitness() returns (days: seq<CalendarDate>, writes: seq<RasterWrite>)
    ensures |days| == 2 && days[0] != days[1]
    ensures |writes| == 1 && writes[0].name != TifName("precipitation", days[1], "0p25")
  {
    days := [Date(2023, 2, 6), Date(2023, 2, 7)];
    writes := DataTif("precipitation", "0p25", days);
    if writes[0].name == TifName("precipitation", days[1], "0p25") {
      TifNameInjective("precipitation", days[0], "0p25", "precipitation", days[1], "0p25");
    }
  }

  /** The day loop without the break: one raster per day, in day order, each
      selecting its own time index; distinct days get distinct files. */
  method DataTifAllDays(forecast: string, resolution: string, days: seq<CalendarDate>) returns (writes: seq<RasterWrite>)
    requires Recognised(forecast)
    ensures |writes| == |days|
    ensures forall i :: 0 <= i < |days| ==> writes[i] == RasterWrite(i, TifName(forecast, days[i], resolution))
    ensures forall i, j :: 0 <= i < j < |days| && days[i] != days[j] ==> writes[i].name != writes[j].name
  {
    writes := [];
    for count := 0 to |days|
      invariant |writes| == count
      invariant forall i :: 0 <= i < count ==> writes[i] == RasterWrite(i, TifName(forecast, days[i], resolution))
    {
      writes := writes + [RasterWrite(count, TifName(forecast, days[count], resolution))];
    }
    DistinctDayNames(forecast, resolution, days, writes);
  }

  /** Writes of each day's raster give distinct days distinct files. */
  lemma DistinctDayNames(forecast: string, resolution: string, days: seq<CalendarDate>, writes: seq<RasterWrite>)
    requires Recognised(forecast) && |writes| == |days|
    requires forall i :: 0 <= i < |days| ==> writes[i] == RasterWrite(i, TifName(forecast, days[i], resolution))
    ensures forall i, j :: 0 <= i < j < |days| && days[i] != days[j] ==> writes[i].name != writes[j].name
  {
    forall i, j | 0 <= i < j < |days| && days[i] != days[j]
      ensures writes[i].name != writes[j].name
    {
      if writes[i].name == writes[j].name {
        TifNameInjective(forecast, days[i], resolution, forecast, days[j], resolution);
      }
    }
  }
}
