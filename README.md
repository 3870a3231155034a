# CFS forecast download: URL, dispatch and file naming

This project models the logic of `CFS_climateForecastSystemData.py` (MapAction's
CFS/GFS forecast downloader) that is its own rather than a library's:

- the **URL builder** `url`, which maps a resolution code, a forecast kind and the
  day's date to the NOMADS GFS OPeNDAP endpoint of that day's run;
- the **forecast-kind dispatch** the script repeats in three places: the URL's step
  segment and hour, the remote variable `fetch_data` selects (`tmp2m` or
  `apcpsfc`), and the nominal hour `data_tif` stamps on raster names;
- the **output names**: the intermediate NetCDF file (`<boundary name up to its
  first dot>.nc`) and the per-day GeoTIFF
  (`{forecast}_gfs_{YYYY-MM-DD}_{resolution}_{hh}z.tif`);
- the **day loop** of `data_tif`, which walks the resampled days and writes one
  raster per iteration, but leaves after the first.

Modules, one per component:

- `Digits` (`digits.dfy`): Python's `str(n)` and `0Nd` zero padding, with the value
  of a digit string as their inverse.
- `Calendar` (`calendar.dfy`): dates as `datetime.date` allows them, `%Y%m%d`
  (`Compact`) and numpy's day-unit ISO string (`Iso`), with parsers that invert them.
- `Forecast` (`forecast.dfy`): the two kinds, the strings that select them, and the
  one table (`ProfileOf`: variable, hour, step) that the script's separate branches
  are proved against.
- `Strings` (`strings.dfy`): where each piece of a concatenation sits, over abstract
  strings, so that facts about URLs and raster names follow from their shape.
- `DataUrl` (`data_url.dfy`): `url`.
- `Fetch` (`fetch.dfy`): the variable choice and the `.nc` name of `fetch_data`.
- `Rasters` (`rasters.dfy`): the hour choice, the raster names and the day loop of
  `data_tif`, with the loop as written (`DataTif`) and without its `break`
  (`DataTifAllDays`).

The forecast kind stays a string, as in the script. The script tests it with
separate `if`s and binds nothing for any other string, so the next use of the
unbound local raises. The model states this as the precondition `Recognised(forecast)`.
The date that `url` reads from the clock is a parameter.

The intermediate `.nc` name keeps only the text of the boundary file name before its
FIRST dot (`a.b.shp` gives `a.nc`), not the name minus its last extension; the model
does the same.

## Model

| member | source | states |
|---|---|---|
| `DataUrl.UrlTemperature` | CFS_climateForecastSystemData.py:66-71 | for `temperature` the URL is exactly `https://nomads.ncep.noaa.gov/dods/gfs_{res}_1hr/gfs{YYYYMMDD}/gfs_{res}_1hr_06z` |
| `DataUrl.UrlPrecipitation` | CFS_climateForecastSystemData.py:73-77 | for `precipitation` the URL is exactly `https://nomads.ncep.noaa.gov/dods/gfs_{res}/gfs{YYYYMMDD}/gfs_{res}_00z`, with no `_1hr` segment |
| `DataUrl.Url` | CFS_climateForecastSystemData.py:53-81 | the URL starts with the NOMADS OPeNDAP host and ends with the `z` of the run hour |
| `DataUrl.KindPieces` | CFS_climateForecastSystemData.py:66-77 | the kind's step then `/gfs` is `_1hr/gfs` or `/gfs`, and its step, `_`, two-digit hour and `z` is `_1hr_06z` or `_00z` |
| `DataUrl.UrlShape` | CFS_climateForecastSystemData.py:63-77 | the URL of either kind is host, `gfs_`, resolution, the kind's step and `/gfs`, the date stamp, `/gfs_`, resolution, and the kind's step, `_`, two-digit table hour and `z` |
| `DataUrl.UrlPieces` | CFS_climateForecastSystemData.py:63-77 | the URL's length, and the resolution and the date stamp at their offsets |
| `DataUrl.UrlDateStamp` | CFS_climateForecastSystemData.py:64-77 | the eight characters after the URL's head are the `YYYYMMDD` stamp of the given date and parse back to that date |
| `DataUrl.UrlHourStamp` | CFS_climateForecastSystemData.py:69-77 | the URL ends in `_06z` for temperature and `_00z` for precipitation |
| `DataUrl.UrlHourDigits` | CFS_climateForecastSystemData.py:69-77 | the two characters before the URL's final `z` are `06` for temperature and `00` for precipitation |
| `DataUrl.UrlInjectiveForKind` | CFS_climateForecastSystemData.py:63-77 | for one kind, equal URLs come from equal resolutions and equal dates |
| `DataUrl.UrlInjective` | CFS_climateForecastSystemData.py:53-81 | equal URLs come from equal resolutions, kinds and dates: the URL identifies the run it names |
| `Forecast.ParseKind` | CFS_climateForecastSystemData.py:66-77 | exactly the strings `temperature` and `precipitation` select a kind, and the kind selected is named by that string |
| `Forecast.ProfileOf` | CFS_climateForecastSystemData.py:66-77 | each kind's table hour is a GFS run cycle (0, 6, 12 or 18) and its step is the hourly dataset's `_1hr` or none |
| `Forecast.HourStamp` | CFS_climateForecastSystemData.py:69-77 | the zero-padded hour is `06` for temperature and `00` for precipitation |
| `Fetch.Variable` | CFS_climateForecastSystemData.py:96-99 | the remote variable is the kind's table entry: `tmp2m` exactly for temperature, `apcpsfc` for precipitation |
| `Fetch.BeforeFirst` | CFS_climateForecastSystemData.py:115 | `split(sep)[0]` is a prefix without `sep`, and is followed by `sep` unless it is the whole string |
| `Fetch.BeforeFirstUnique` | CFS_climateForecastSystemData.py:115 | only one prefix has those properties, so they define `split(sep)[0]` |
| `Fetch.NcName` | CFS_climateForecastSystemData.py:115 | the intermediate name is `.nc` after a stem that is the boundary name cut just before its first dot (or all of it) |
| `Fetch.NcNameOfStem` | CFS_climateForecastSystemData.py:115 | `stem.rest` with no dot in `stem` is named `stem.nc`, whatever `rest` holds |
| `Fetch.NcNameWithoutDot` | CFS_climateForecastSystemData.py:115 | a boundary name with no dot just gains `.nc` |
| `Fetch.NcNameIdempotent` | CFS_climateForecastSystemData.py:115 | naming an intermediate file name again gives the same name |
| `Digits.Decimal` | CFS_climateForecastSystemData.py:71 | the rendering of `n` is a non-empty digit string whose value is `n`, with a leading zero only for 0, and a single digit for n below 10 (so 0 is `0`) |
| `Digits.ZeroPad` | CFS_climateForecastSystemData.py:71 | `{n:0Nd}` is a digit string whose value is `n`, of width N or of `n`'s own digit count when that is larger |
| `Digits.ZeroPadWidth` | CFS_climateForecastSystemData.py:71 | a number below 10^N pads to exactly N characters |
| `Calendar.Compact` | CFS_climateForecastSystemData.py:64 | `strftime("%Y%m%d")` gives eight digits |
| `Calendar.CompactRoundTrip` | CFS_climateForecastSystemData.py:64 | the `YYYYMMDD` stamp parses back to the date it was made from |
| `Calendar.CompactInjective` | CFS_climateForecastSystemData.py:64 | different dates give different `YYYYMMDD` stamps |
| `Calendar.StampExample` | CFS_climateForecastSystemData.py:64 | 6 February 2023 is stamped `20230206` in URLs and `2023-02-06` in raster names |
| `Calendar.Iso` | CFS_climateForecastSystemData.py:166 | the day-unit ISO string is ten characters with dashes at positions 4 and 7 |
| `Calendar.IsoIsDashedCompact` | CFS_climateForecastSystemData.py:166 | the ISO stamp of a date is its `YYYYMMDD` stamp with dashes after year and month |
| `Calendar.IsoRoundTrip` | CFS_climateForecastSystemData.py:166 | the ISO stamp parses back to the date it was made from |
| `Calendar.IsoInjective` | CFS_climateForecastSystemData.py:166 | different dates give different ISO stamps |
| `Rasters.RasterHour` | CFS_climateForecastSystemData.py:132-138 | the raster step's hour is the kind's table hour: 6 for temperature, 0 for precipitation |
| `Rasters.RasterHourMatchesUrl` | CFS_climateForecastSystemData.py:133-138 | the two hour digits of a raster name equal those of the URL of the same kind: `06` or `00` |
| `Rasters.RasterDateMatchesUrl` | CFS_climateForecastSystemData.py:166 | the date in a raster name, dashes removed, is the URL's `YYYYMMDD` stamp for the same date |
| `Rasters.TifName` | CFS_climateForecastSystemData.py:166 | a raster name starts with the forecast kind and ends in `z.tif` |
| `Rasters.TifPieces` | CFS_climateForecastSystemData.py:166 | a raster name is the kind followed by `_gfs_`, the ISO date, `_`, resolution, `_`, two-digit hour and `z.tif`, each at its offset |
| `Rasters.TifHourStamp` | CFS_climateForecastSystemData.py:166 | the two characters before `z.tif` are the raster step's hour, zero-padded to two digits |
| `Rasters.ParseTifName` | CFS_climateForecastSystemData.py:166 | whatever a raster name reads back as is a recognised kind, a date and a resolution that name it |
| `Rasters.KindPrefixOf` | CFS_climateForecastSystemData.py:166 | a raster name starts with the kind it was made for, so the kind can be read off its head |
| `Rasters.TifNameRoundTrip` | CFS_climateForecastSystemData.py:166 | a raster name reads back as the kind, date and resolution it was made from, whatever the resolution holds |
| `Rasters.TifNameInjective` | CFS_climateForecastSystemData.py:166 | different kinds, dates or resolutions never share a raster name |
| `Rasters.DataTif` | CFS_climateForecastSystemData.py:155-167 | the loop as written writes nothing for no days and exactly one raster, time index 0 named for the first day, otherwise |
| `Rasters.TruncationWitness` | CFS_climateForecastSystemData.py:155-167 | given two distinct days, the loop as written writes one raster and not the second day's |
| `Rasters.DataTifAllDays` | CFS_climateForecastSystemData.py:153-166 | without the `break`, the i-th write selects time index i and is named for day i; distinct days get distinct files |
| `Rasters.DistinctDayNames` | CFS_climateForecastSystemData.py:166 | when every write is named for its own day, two different days never write the same file |

## Left out

- Opening the remote dataset and slicing it by latitude and longitude (lines 111-112): network I/O and xarray behaviour. The slice's dependence on the remote latitude order is therefore not modelled.
- Reading the boundary file and taking `total_bounds` (lines 102-103): file I/O and geopandas.
- `to_netcdf`, `rio.write_crs`, `rename` and `rio.to_raster` (lines 116, 143, 146, 166): file writing and rioxarray. Only the file names are modelled, without the `main_path / forecast_data/` directory they are written under.
- Daily resampling, the `- 273.1` offset and `np.round` (lines 134-140): floating-point numerics done by xarray and numpy. The day loop takes the resampled days as a sequence of dates.
- `dt.date.today()` (line 64): clock access. The date is a parameter.
- Logging, `print`, the `.info` URL that is only logged, warning suppression, and the click command line with its defaults (lines 32-33, 44-51, 79-80, 151, 156, 161, 169, 177, 184-215): no statable logic.
- Unrecognised forecast kinds: the script fails on them with an unbound local (lines 79, 112, 143). The model makes this the precondition `Recognised(forecast)` rather than an error value.
- Calendar.Compact: follows Python's documented four-digit `%Y`. For years before 1000 the padding depends on the platform's C library. The clock never gives such a year.
- A check that the bounding-box slice is not empty does not exist in the code and is not modelled.

## Findings

| source | as written | input that shows it | evidently intended | confidence | as-written member | corrected member |
|---|---|---|---|---|---|---|
| CFS_climateForecastSystemData.py:167 | an unconditional `break` ends the day loop after the first raster | resampled days 2023-02-06 and 2023-02-07: only `precipitation_gfs_2023-02-06_0p25_00z.tif` is written | one raster per day, as the comment at line 154 says | medium (it may be a leftover debugging stop), not executed | `Rasters.TruncationWitness` | `Rasters.DataTifAllDays` |
