/**
 * The listing matcher of `src/core/filter_engine.py`.
 *
 * The specification is declarative: `Admits` says when a listing is admitted,
 * `ModeScore` and `TailScore` say what it earns, and `Verdict` combines them
 * into `(is_match, score)`.  `Evaluate` is the source's imperative procedure
 * (flags, early returns, `continue`/`break`), proved equal to `Verdict`.
 */
module FilterEngine {
  import opened Wrappers
  import opened Text
  import opened Config
  import opened Listings

  /** `rapidfuzz.fuzz.partial_ratio`: an otherwise unknown similarity in `[0, 100]`. */
  type Similarity = f: (string, string) -> int | forall a, b :: 0 <= f(a, b) <= 100
    witness (a: string, b: string) => 0

  const MakeThreshold: int := 90
  const ModelThreshold: int := 85
  const VehicleBonus: nat := 30
  const MakeBonus: nat := 10
  const ModelBonus: nat := 20
  const YearBonus: nat := 5
  const PriceBonus: nat := 10
  const MileageBonus: nat := 5
  const FeatureBonus: nat := 5

  datatype MatchResult = MatchResult(isMatch: bool, score: nat)

  /** A text field is truthy: present and non-empty. */
  predicate Present(s: Option<string>) { s.Some? && s.value != [] }

  /** An integer field is truthy: present and non-zero. */
  predicate IntTruthy(o: Option<int>) { o.Some? && o.value != 0 }

  /** A price is truthy: present and non-zero. */
  predicate RealTruthy(o: Option<real>) { o.Some? && o.value != 0.0 }

  /** The text a fuzzy test reads: the structured field when it is truthy, else the title. */
  function FieldOrTitle(field: Option<string>, title: string): string {
    if Present(field) then field.value else title
  }

  /** The fuzzy test: lower-cased similarity strictly above the threshold. */
  predicate FuzzyHit(sim: Similarity, wanted: string, field: Option<string>, title: string, threshold: int) {
    sim(Lower(wanted), Lower(FieldOrTitle(field, title))) > threshold
  }

  predicate MakeHit(sim: Similarity, make: string, l: RawListing) {
    FuzzyHit(sim, make, l.make, l.title, MakeThreshold)
  }

  predicate ModelHit(sim: Similarity, model: string, l: RawListing) {
    FuzzyHit(sim, model, l.model, l.title, ModelThreshold)
  }

  /** Inclusive year bounds; a falsy year or a falsy bound constrains nothing. */
  predicate YearWithin(year: Option<int>, lo: Option<int>, hi: Option<int>) {
    !IntTruthy(year) ||
    ((!IntTruthy(lo) || year.value >= lo.value) && (!IntTruthy(hi) || year.value <= hi.value))
  }

  predicate CriterionHolds(sim: Similarity, v: VehicleCriteria, l: RawListing) {
    MakeHit(sim, v.make, l) && ModelHit(sim, v.model, l) && YearWithin(l.year, v.yearMin, v.yearMax)
  }

  predicate AnyCriterionHolds(sim: Similarity, vs: seq<VehicleCriteria>, l: RawListing) {
    exists i :: 0 <= i < |vs| && CriterionHolds(sim, vs[i], l)
  }

  predicate AnyMakeHit(sim: Similarity, makes: seq<string>, l: RawListing) {
    exists i :: 0 <= i < |makes| && MakeHit(sim, makes[i], l)
  }

  predicate AnyModelHit(sim: Similarity, models: seq<string>, l: RawListing) {
    exists i :: 0 <= i < |models| && ModelHit(sim, models[i], l)
  }

  /** Vehicle mode (a non-empty `vehicles`) or flat mode. */
  predicate ModeAdmits(sim: Similarity, p: AgentParameters, l: RawListing) {
    if p.vehicles != [] then AnyCriterionHolds(sim, p.vehicles, l)
    else
      && (p.makes == [] || AnyMakeHit(sim, p.makes, l))
      && (p.models == [] || AnyModelHit(sim, p.models, l))
      && YearWithin(l.year, p.yearMin, p.yearMax)
  }

  predicate PriceWithin(p: AgentParameters, l: RawListing) {
    !RealTruthy(l.price) || !RealTruthy(p.priceMax) || l.price.value <= p.priceMax.value
  }

  predicate MileageWithin(p: AgentParameters, l: RawListing) {
    !IntTruthy(l.mileage) || !IntTruthy(p.mileageMax) || l.mileage.value <= p.mileageMax.value
  }

  /** Some exclude keyword occurs, case-insensitively, in the title. */
  predicate Excluded(p: AgentParameters, l: RawListing) {
    exists i :: 0 <= i < |p.excludeKeywords| && Contains(Lower(l.title), Lower(p.excludeKeywords[i]))
  }

  predicate Admits(sim: Similarity, p: AgentParameters, l: RawListing) {
    ModeAdmits(sim, p, l) && PriceWithin(p, l) && MileageWithin(p, l) && !Excluded(p, l)
  }

  /** The score the mode part awards to an admitted listing. */
  function ModeScore(p: AgentParameters, l: RawListing): nat {
    if p.vehicles != [] then VehicleBonus
    else
      (if p.makes != [] then MakeBonus else 0)
      + (if p.models != [] then ModelBonus else 0)
      + (if IntTruthy(l.year) then YearBonus else 0)
  }

  /** How many of `features` occur, case-insensitively, in `title`. */
  function FeatureHits(features: seq<string>, title: string): (n: nat)
    ensures n <= |features|
  {
    if features == [] then 0
    else
      FeatureHits(features[..|features| - 1], title)
        + (if Contains(Lower(title), Lower(features[|features| - 1])) then 1 else 0)
  }

  /** The score the shared tail awards to an admitted listing. */
  function TailScore(p: AgentParameters, l: RawListing): nat {
    (if RealTruthy(l.price) then PriceBonus else 0)
    + (if IntTruthy(l.mileage) then MileageBonus else 0)
    + FeatureBonus * FeatureHits(p.featuresAny, l.title)
  }

  /** `(is_match, score)`: the whole score when admitted, exactly `(False, 0.0)` otherwise. */
  function Verdict(sim: Similarity, l: RawListing, p: AgentParameters): MatchResult {
    if Admits(sim, p, l) then MatchResult(true, ModeScore(p, l) + TailScore(p, l))
    else MatchResult(false, 0)
  }

  /** The `for v in params.vehicles` loop: `True` once some vehicle's make, model and years match. */
  method MatchVehicles(sim: Similarity, listing: RawListing, vehicles: seq<VehicleCriteria>) returns (vehicleMatch: bool)
    ensures vehicleMatch == AnyCriterionHolds(sim, vehicles, listing)
  {
    var title := Lower(listing.title);
    vehicleMatch := false;
    for i := 0 to |vehicles|
      invariant !vehicleMatch
      invariant forall j :: 0 <= j < i ==> !CriterionHolds(sim, vehicles[j], listing)
    {
      var v := vehicles[i];
      var mMatch := false;
      if Present(listing.make) && sim(Lower(v.make), Lower(listing.make.value)) > MakeThreshold {
        mMatch := true;
      } else if !Present(listing.make) && sim(Lower(v.make), title) > MakeThreshold {
        mMatch := true;
      }
      if !mMatch { continue; }

      var modMatch := false;
      if Present(listing.model) && sim(Lower(v.model), Lower(listing.model.value)) > ModelThreshold {
        modMatch := true;
      } else if !Present(listing.model) && sim(Lower(v.model), title) > ModelThreshold {
        modMatch := true;
      }
      if !modMatch { continue; }

      if IntTruthy(listing.year) {
        if IntTruthy(v.yearMin) && listing.year.value < v.yearMin.value { continue; }
        if IntTruthy(v.yearMax) && listing.year.value > v.yearMax.value { continue; }
      }

      assert CriterionHolds(sim, v, listing);
      vehicleMatch := true;
      break;
    }
  }

  /** The `for make in params.makes` loop: `True` at the first make that matches. */
  method MatchMakes(sim: Similarity, listing: RawListing, makes: seq<string>) returns (makeMatch: bool)
    ensures makeMatch == AnyMakeHit(sim, makes, listing)
  {
    var title := Lower(listing.title);
    makeMatch := false;
    for i := 0 to |makes|
      invariant !makeMatch
      invariant forall j :: 0 <= j < i ==> !MakeHit(sim, makes[j], listing)
    {
      var make := makes[i];
      if Present(listing.make) && sim(Lower(make), Lower(listing.make.value)) > MakeThreshold {
        makeMatch := true;
        assert MakeHit(sim, make, listing);
        break;
      }
      if !Present(listing.make) && sim(Lower(make), title) > MakeThreshold {
        makeMatch := true;
        assert MakeHit(sim, make, listing);
        break;
      }
    }
  }

  /** The `for model in params.models` loop: `True` at the first model that matches. */
  method MatchModels(sim: Similarity, listing: RawListing, models: seq<string>) returns (modelMatch: bool)
    ensures modelMatch == AnyModelHit(sim, models, listing)
  {
    var title := Lower(listing.title);
    modelMatch := false;
    for i := 0 to |models|
      invariant !modelMatch
      invariant forall j :: 0 <= j < i ==> !ModelHit(sim, models[j], listing)
    {
      var model := models[i];
      if Present(listing.model) && sim(Lower(model), Lower(listing.model.value)) > ModelThreshold {
        modelMatch := true;
        assert ModelHit(sim, model, listing);
        break;
      }
      if !Present(listing.model) && sim(Lower(model), title) > ModelThreshold {
        modelMatch := true;
        assert ModelHit(sim, model, listing);
        break;
      }
    }
  }

  /** The `for kw in params.exclude_keywords` loop: `True` at the first keyword in the title. */
  method FindExcluded(params: AgentParameters, listing: RawListing) returns (excluded: bool)
    ensures excluded == Excluded(params, listing)
  {
    var title := Lower(listing.title);
    for i := 0 to |params.excludeKeywords|
      invariant forall j :: 0 <= j < i ==> !Contains(title, Lower(params.excludeKeywords[j]))
    {
      var kw := params.excludeKeywords[i];
      if Contains(title, Lower(kw)) {
        return true;
      }
    }
    return false;
  }

  /** The `for feature in params.features_any` loop: five points per feature in the title. */
  method AddFeatureBonus(start: nat, features: seq<string>, listing: RawListing) returns (score: nat)
    ensures score == start + FeatureBonus * FeatureHits(features, listing.title)
  {
    var title := Lower(listing.title);
    score := start;
    for i := 0 to |features|
      invariant score == start + FeatureBonus * FeatureHits(features[..i], listing.title)
    {
      assert features[..i + 1][..i] == features[..i];
      var feature := features[i];
      if Contains(title, Lower(feature)) {
        score := score + FeatureBonus;
      }
    }
    assert features[..|features|] == features;
  }

  /**
   * The first half of `evaluate`: vehicle mode or flat mode, returning
   * `(False, 0.0)` at the first test that fails, else the points so far.
   */
  method ScoreMode(sim: Similarity, listing: RawListing, params: AgentParameters) returns (admitted: bool, score: nat)
    ensures admitted == ModeAdmits(sim, params, listing)
    ensures score == if admitted then ModeScore(params, listing) else 0
  {
    score := 0;
    if params.vehicles != [] {
      var vehicleMatch := MatchVehicles(sim, listing, params.vehicles);
      if !vehicleMatch {
        return false, 0;
      }
      score := score + VehicleBonus;
    } else {
      if params.makes != [] {
        var makeMatch := MatchMakes(sim, listing, params.makes);
        if !makeMatch {
          return false, 0;
        }
        score := score + MakeBonus;
      }

      if params.models != [] {
        var modelMatch := MatchModels(sim, listing, params.models);
        if !modelMatch {
          return false, 0;
        }
        score := score + ModelBonus;
      }

      if IntTruthy(listing.year) {
        if IntTruthy(params.yearMin) && listing.year.value < params.yearMin.value {
          return false, 0;
        }
        if IntTruthy(params.yearMax) && listing.year.value > params.yearMax.value {
          return false, 0;
        }
        score := score + YearBonus;
      }
    }
    return true, score;
  }

  /** `FilterEngine.evaluate`, step by step as the source runs it. */
  method Evaluate(sim: Similarity, listing: RawListing, params: AgentParameters) returns (isMatch: bool, score: nat)
    ensures MatchResult(isMatch, score) == Verdict(sim, listing, params)
    ensures !isMatch ==> score == 0
  {
    var admitted;
    admitted, score := ScoreMode(sim, listing, params);
    if !admitted {
      return false, 0;
    }

    if RealTruthy(listing.price) {
      if RealTruthy(params.priceMax) && listing.price.value > params.priceMax.value {
        return false, 0;
      }
      score := score + PriceBonus;
    }

    if IntTruthy(listing.mileage) {
      if IntTruthy(params.mileageMax) && listing.mileage.value > params.mileageMax.value {
        return false, 0;
      }
      score := score + MileageBonus;
    }

    if params.excludeKeywords != [] {
      var excluded := FindExcluded(params, listing);
      if excluded {
        return false, 0;
      }
    }

    if params.featuresAny != [] {
      score := AddFeatureBonus(score, params.featuresAny, listing);
    }
    assert Admits(sim, params, listing);
    return true, score;
  }
}
