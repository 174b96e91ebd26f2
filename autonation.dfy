/**
 * `src/data/providers/autonation.py`: the search URL with its Raptor
 * special case.  Its cards are read by `Scraping.DealerListing`.
 */
module AutoNation {
  import opened Text
  import opened Config
  import opened Scraping

  const Source: string := "autonation"
  const Base: string := "https://www.autonation.com/cars-for-sale"
  const Origin: SiteOrigin := "https://www.autonation.com"
  const RaptorQuery: string := "?make=Ford&model=F-150&trim=Raptor"

  /** The search URL for a lowercased make and a slugged model. */
  function Url(make: string, model: string): (r: string)
    ensures make == "ford" && Contains(model, "raptor") ==> r == Base + RaptorQuery
    ensures !(make == "ford" && Contains(model, "raptor")) ==>
      StartsWith(r, Base + "?make=" + make) && EndsWith(r, "&model=" + model)
  {
    if make == "ford" && Contains(model, "raptor") then Base + RaptorQuery
    else
      var pre := Base + "?make=" + make;
      ConcatEnds(pre, "&model=" + model);
      assert pre + ("&model=" + model) == Base + "?make=" + make + "&model=" + model;
      Base + "?make=" + make + "&model=" + model
  }

  /** The search URL, as `search` builds it from the first make and model. */
  function SearchUrl(p: AgentParameters): string {
    Url(Lower(FirstOrEmpty(p.makes)), Slug(FirstOrEmpty(p.models)))
  }
}
