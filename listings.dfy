/**
 * `RawListing` and the provider interface of `src/data/base_provider.py`.
 * A provider's `search(params)` is given to the model as a function from the
 * source name and the parameters to an outcome: the listings it returned, or
 * the fact that it raised.
 */
module Listings {
  import opened Wrappers
  import opened PyJson
  import opened Config

  /** One scraped listing; `externalId`, `source`, `url` and `title` are required. */
  datatype RawListing = RawListing(
    externalId: string,
    source: string,
    url: string,
    title: string,
    price: Option<real> := None,
    mileage: Option<int> := None,
    year: Option<int> := None,
    make: Option<string> := None,
    model: Option<string> := None,
    location: Option<string> := None,
    images: seq<string> := [],
    rawData: map<string, Json> := map[])

  /** A listing built from the four required fields leaves the optional ones unset. */
  lemma RawListingDefaults(id: string, source: string, url: string, title: string)
    ensures var l := RawListing(id, source, url, title);
      && l.externalId == id && l.source == source && l.url == url && l.title == title
      && l.price.None? && l.mileage.None? && l.year.None?
      && l.make.None? && l.model.None? && l.location.None?
      && l.images == [] && l.rawData == map[]
  {
  }

  /** What one `search` call does: return a list, or raise. */
  datatype SearchOutcome = Found(listings: seq<RawListing>) | Raised

  /** `BaseProvider.search`, for every source, as one function. */
  type SearchFn = (string, AgentParameters) -> SearchOutcome

  /** The listings kept by a per-item extraction that skips the items it rejects. */
  function FilterMap<A, B>(xs: seq<A>, f: A -> Option<B>): (r: seq<B>)
    ensures |r| <= |xs|
  {
    if xs == [] then []
    else
      FilterMap(xs[..|xs| - 1], f)
        + match f(xs[|xs| - 1]) case Some(y) => [y] case None => []
  }

  /** Every kept value comes from some item, and every accepted item is kept. */
  lemma {:induction false} FilterMapMembers<A, B>(xs: seq<A>, f: A -> Option<B>)
    ensures forall y :: y in FilterMap(xs, f) ==> exists i :: 0 <= i < |xs| && f(xs[i]) == Some(y)
    ensures forall i :: 0 <= i < |xs| && f(xs[i]).Some? ==> f(xs[i]).value in FilterMap(xs, f)
  {
    if xs != [] {
      var init := xs[..|xs| - 1];
      FilterMapMembers(init, f);
      forall y | y in FilterMap(xs, f) ensures exists i :: 0 <= i < |xs| && f(xs[i]) == Some(y) {
        if y in FilterMap(init, f) {
          var i :| 0 <= i < |init| && f(init[i]) == Some(y);
          assert xs[i] == init[i];
        } else {
          assert f(xs[|xs| - 1]) == Some(y);
        }
      }
      forall i | 0 <= i < |xs| && f(xs[i]).Some? ensures f(xs[i]).value in FilterMap(xs, f) {
        if i < |xs| - 1 { assert xs[i] == init[i]; }
      }
    }
  }

  /**
   * The item loop every provider runs: extract each item, append what the
   * extraction yields, and skip the item when it raises or is rejected.
   */
  method CollectListings<C>(items: seq<C>, extract: C -> Option<RawListing>) returns (listings: seq<RawListing>)
    ensures listings == FilterMap(items, extract)
  {
    listings := [];
    for i := 0 to |items|
      invariant listings == FilterMap(items[..i], extract)
    {
      assert items[..i + 1][..i] == items[..i];
      match extract(items[i]) {
        case Some(l) => listings := listings + [l];
        case None =>
      }
    }
    assert items[..|items|] == items;
  }
}
