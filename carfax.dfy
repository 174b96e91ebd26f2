/** `src/data/providers/carfax.py`: the search URL and the per-card extraction. */
module Carfax {
  import opened Wrappers
  import opened Text
  import opened PyJson
  import opened Config
  import opened Listings
  import opened Scraping
  import opened FilterEngine

  const Source: string := "carfax"
  const Base: string := "https://www.carfax.com/cars-for-sale"
  const Origin: SiteOrigin := "https://www.carfax.com"
  const DefaultZip: string := "60601"

  /**
   * `params.get("location", {}).get("zip", "60601")` as written: the
   * parameters always carry `location`, `None` for a profile without one,
   * and `None.get` raises (`None` here).
   */
  function ZipAsWritten(p: AgentParameters): (r: Option<string>)
    ensures r.None? <==> p.location.None?
    ensures r.Some? ==> r.value == p.location.value.zip
  {
    match p.location
    case None => None
    case Some(l) => Some(l.zip)
  }

  /** The default profile, searching for one make and model, cannot build its Carfax URL. */
  lemma NoLocationRaises()
    ensures ZipAsWritten(AgentParameters(makes := ["BMW"], models := ["M3"])).None?
  {
  }

  /** The evident intent: the profile's zip, or `60601` without a location. */
  function Zip(p: AgentParameters): (r: string)
    ensures p.location.None? ==> r == DefaultZip
    ensures p.location.Some? ==> r == p.location.value.zip
    ensures ZipAsWritten(p).Some? ==> r == ZipAsWritten(p).value
  {
    match p.location
    case None => DefaultZip
    case Some(l) => l.zip
  }

  /** The path after the base: `/make/model`, `/make`, or nothing. */
  function Path(make: string, model: string): string {
    if make != [] && model != [] then "/" + make + "/" + model
    else if make != [] then "/" + make
    else []
  }

  /** The search URL, as `search` builds it. */
  function SearchUrl(p: AgentParameters): string {
    WithQuery(Base + Path(Lower(FirstOrEmpty(p.makes)), Slug(FirstOrEmpty(p.models))), Zip(p), YearParam("yearMin", p.yearMin))
  }

  function WithQuery(pre: string, zip: string, year: string): string {
    pre + ("?zip=" + zip + year)
  }

  lemma WithQueryShape(pre: string, zip: string, year: string)
    ensures StartsWith(WithQuery(pre, zip, year), pre + "?zip=" + zip)
    ensures EndsWith(WithQuery(pre, zip, year), "?zip=" + zip + year)
    ensures EndsWith(WithQuery(pre, zip, year), year)
  {
    var q := "?zip=" + zip;
    ConcatEnds(pre + q, year);
    ConcatEnds(pre, q + year);
    assert WithQuery(pre, zip, year) == (pre + q) + year;
  }

  /**
   * The search URL is the base, the path of the lowercased make and the
   * slugged model, the zip, and then `&yearMin=` exactly when the lower year
   * bound is truthy.
   */
  lemma SearchUrlShape(p: AgentParameters)
    ensures StartsWith(SearchUrl(p), Base + Path(Lower(FirstOrEmpty(p.makes)), Slug(FirstOrEmpty(p.models))) + "?zip=" + Zip(p))
    ensures IntTruthy(p.yearMin) ==> EndsWith(SearchUrl(p), "&yearMin=" + IntToString(p.yearMin.value))
    ensures !IntTruthy(p.yearMin) ==> EndsWith(SearchUrl(p), "?zip=" + Zip(p))
  {
    QueryYear(Base + Path(Lower(FirstOrEmpty(p.makes)), Slug(FirstOrEmpty(p.models))), Zip(p), p.yearMin);
  }

  lemma QueryYear(pre: string, zip: string, yearMin: Option<int>)
    ensures StartsWith(WithQuery(pre, zip, YearParam("yearMin", yearMin)), pre + "?zip=" + zip)
    ensures IntTruthy(yearMin) ==> EndsWith(WithQuery(pre, zip, YearParam("yearMin", yearMin)), "&yearMin=" + IntToString(yearMin.value))
    ensures !IntTruthy(yearMin) ==> EndsWith(WithQuery(pre, zip, YearParam("yearMin", yearMin)), "?zip=" + zip)
  {
    if IntTruthy(yearMin) {
      QueryWithYear(pre, zip, yearMin.value);
    } else {
      assert YearParam("yearMin", yearMin) == [];
      QueryWithoutYear(pre, zip);
    }
  }

  lemma QueryWithYear(pre: string, zip: string, year: int)
    requires year != 0
    ensures StartsWith(WithQuery(pre, zip, YearParam("yearMin", Some(year))), pre + "?zip=" + zip)
    ensures EndsWith(WithQuery(pre, zip, YearParam("yearMin", Some(year))), "&yearMin=" + IntToString(year))
  {
    var y := "&yearMin=" + IntToString(year);
    assert YearParam("yearMin", Some(year)) == y;
    WithQueryShape(pre, zip, y);
  }

  lemma QueryWithoutYear(pre: string, zip: string)
    ensures StartsWith(WithQuery(pre, zip, []), pre + "?zip=" + zip)
    ensures EndsWith(WithQuery(pre, zip, []), "?zip=" + zip)
  {
    WithQueryShape(pre, zip, []);
    assert "?zip=" + zip + [] == "?zip=" + zip;
  }

  /** Without a make the URL is the bare base with its zip. */
  lemma NoMakeSearchesEverything(p: AgentParameters)
    requires p.makes == [] && !IntTruthy(p.yearMin)
    ensures SearchUrl(p) == Base + "?zip=" + Zip(p)
  {
  }
}
