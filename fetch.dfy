/** The pure parts of the fetch step: which remote variable a kind reads and
    what the intermediate NetCDF file is called. */
module Fetch {
  import opened Forecast

  /** The remote variable the fetch step selects from the dataset; any other
      kind leaves it unbound and the program fails when it indexes the dataset. */
  function Variable(forecast: string): (v: string)
    requires Recognised(forecast)
    ensures v == ProfileOf(ParseKind(forecast).value).variable
    ensures v == "tmp2m" <==> forecast == "temperature"
  {
    if forecast == "temperature" then "tmp2m"
    else "apcpsfc"
  }

  /** Python's `s.split(sep)[0]`: the text before the first `sep`, or all of
      `s` when it has none. */
  function BeforeFirst(s: string, sep: char): (p: string)
    ensures p <= s && sep !in p
    ensures |p| < |s| ==> s[|p|] == sep
  {
    if s == [] || s[0] == sep then [] else [s[0]] + BeforeFirst(s[1..], sep)
  }

  /** Those three properties pin the result down: there is one such prefix. */
  lemma {:induction false} BeforeFirstUnique(s: string, sep: char, p: string)
    requires p <= s && sep !in p
    requires |p| < |s| ==> s[|p|] == sep
    ensures p == BeforeFirst(s, sep)
  {
    if s != [] && s[0] != sep && p != [] {
      BeforeFirstUnique(s[1..], sep, p[1..]);
      assert p == [p[0]] + p[1..];
    }
  }

  /** Name of the intermediate file: the boundary file name up to its first
      dot, then `.nc`. */
  function NcName(shpName: string): (n: string)
    ensures |n| >= 3 && n[|n| - 3..] == ".nc"
    ensures var stem := n[..|n| - 3];
            stem <= shpName && '.' !in stem && (|stem| < |shpName| ==> shpName[|stem|] == '.')
  {
    var n := BeforeFirst(shpName, '.') + ".nc";
    assert n[..|n| - 3] == BeforeFirst(shpName, '.');
    n
  }

  /** A boundary file name `stem.rest` with no dot in `stem` gives `stem.nc`,
      whatever `rest` holds (further dots included). */
  lemma NcNameOfStem(stem: string, rest: string)
    requires '.' !in stem
    ensures NcName(stem + "." + rest) == stem + ".nc"
  {
    BeforeFirstUnique(stem + "." + rest, '.', stem);
  }

  /** A name without a dot just gains the extension. */
  lemma NcNameWithoutDot(shpName: string)
    requires '.' !in shpName
    ensures NcName(shpName) == shpName + ".nc"
  {
    BeforeFirstUnique(shpName, '.', shpName);
  }

  /** Naming is idempotent: the name of an intermediate file is itself. */
  lemma NcNameIdempotent(shpName: string)
    ensures NcName(NcName(shpName)) == NcName(shpName)
  {
    var n := NcName(shpName);
    var stem := n[..|n| - 3];
    assert n == stem + ".nc";
    BeforeFirstUnique(n, '.', stem);
  }
}
