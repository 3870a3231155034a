/** The forecast kinds the program recognises and what each one selects. The
    program itself tests the kind as a string in three places (the URL builder,
    the variable choice in the fetch step and the hour choice in the raster
    step); this module is the single table those tests are proved against. */
module Forecast {
  import opened Wrappers
  import opened Digits

  datatype Kind = Temperature | Precipitation

  /** The command-line spelling of each kind (`--clim_var`). */
  function Name(k: Kind): string {
    match k
    case Temperature => "temperature"
    case Precipitation => "precipitation"
  }

  /** The strings every dispatch of the program matches; any other string
      leaves the dispatched local unbound and the program fails. */
  predicate Recognised(forecast: string) {
    forecast == "temperature" || forecast == "precipitation"
  }

  /** The kind a `--clim_var` string selects, if any. */
  function ParseKind(forecast: string): (r: Option<Kind>)
    ensures r.Some? <==> Recognised(forecast)
    ensures r.Some? ==> Name(r.value) == forecast
  {
    if forecast == "temperature" then Some(Temperature)
    else if forecast == "precipitation" then Some(Precipitation)
    else None
  }

  /** Remote variable name, nominal forecast hour and URL step segment of a kind. */
  datatype Profile = Profile(variable: string, hour: nat, step: string)

  /** The hour is one of the GFS run cycles (00, 06, 12, 18 UTC), and the step
      segment is that of one of the two NOMADS datasets: hourly or the default. */
  function ProfileOf(k: Kind): (p: Profile)
    ensures p.hour in {0, 6, 12, 18}
    ensures p.step == "_1hr" || p.step == ""
  {
    match k
    case Temperature => Profile("tmp2m", 6, "_1hr")
    case Precipitation => Profile("apcpsfc", 0, "")
  }

  /** The two-digit hour stamps: `06` and `00`. */
  lemma HourStamps()
    ensures ZeroPad(6, 2) == "06" && ZeroPad(0, 2) == "00"
  {
    assert DigitChar(6) == '6' && DigitChar(0) == '0';
    assert Zeros(1) == "0";
  }

  /** The two-digit hour stamp of each kind. */
  lemma HourStamp(k: Kind)
    ensures ZeroPad(ProfileOf(k).hour, 2) == if k == Temperature then "06" else "00"
  {
    HourStamps();
  }
}
