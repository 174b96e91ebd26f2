/** What the matcher promises, stated about its specification `Verdict`. */
module FilterProperties {
  import opened Wrappers
  import opened Text
  import opened Config
  import opened Listings
  import opened FilterEngine

  /** A rejection carries no partial score; an admission carries the mode and tail bonuses. */
  lemma RejectionIsExactlyZero(sim: Similarity, l: RawListing, p: AgentParameters)
    ensures !Verdict(sim, l, p).isMatch ==> Verdict(sim, l, p) == MatchResult(false, 0)
    ensures Verdict(sim, l, p).isMatch ==> Verdict(sim, l, p).score >= ModeScore(p, l)
  {
  }

  /**
   * Vehicle mode: admitted iff some criterion passes and the tail passes; the
   * score is a flat 30 plus the tail, however many criteria pass.
   */
  lemma VehicleModeAdmission(sim: Similarity, l: RawListing, p: AgentParameters)
    requires p.vehicles != []
    ensures Verdict(sim, l, p).isMatch <==>
      (exists i :: 0 <= i < |p.vehicles| && CriterionHolds(sim, p.vehicles[i], l))
      && PriceWithin(p, l) && MileageWithin(p, l) && !Excluded(p, l)
    ensures Verdict(sim, l, p).isMatch ==> Verdict(sim, l, p).score == VehicleBonus + TailScore(p, l)
  {
  }

  /** Vehicle mode ignores the flat `makes`, `models`, `year_min` and `year_max`. */
  lemma VehicleModeIgnoresFlatFields(sim: Similarity, l: RawListing, p: AgentParameters,
                                     makes: seq<string>, models: seq<string>, lo: Option<int>, hi: Option<int>)
    requires p.vehicles != []
    ensures Verdict(sim, l, p) == Verdict(sim, l, p.(makes := makes, models := models, yearMin := lo, yearMax := hi))
  {
  }

  /** Criteria after the first passing one cannot change the outcome. */
  lemma LaterCriteriaIrrelevant(sim: Similarity, l: RawListing, p: AgentParameters, k: nat)
    requires k < |p.vehicles| && CriterionHolds(sim, p.vehicles[k], l)
    ensures Verdict(sim, l, p) == Verdict(sim, l, p.(vehicles := p.vehicles[..k + 1]))
  {
    assert p.vehicles[..k + 1][k] == p.vehicles[k];
  }

  /** Flat mode: each non-empty list must hit and earns its bonus; the year earns 5 when truthy and within bounds. */
  lemma FlatModeAdmission(sim: Similarity, l: RawListing, p: AgentParameters)
    requires p.vehicles == []
    ensures Verdict(sim, l, p).isMatch ==>
      && (p.makes != [] ==> exists i :: 0 <= i < |p.makes| && MakeHit(sim, p.makes[i], l))
      && (p.models != [] ==> exists i :: 0 <= i < |p.models| && ModelHit(sim, p.models[i], l))
      && YearWithin(l.year, p.yearMin, p.yearMax)
    ensures Verdict(sim, l, p).isMatch ==>
      Verdict(sim, l, p).score ==
        (if p.makes != [] then 10 else 0) + (if p.models != [] then 20 else 0)
        + (if IntTruthy(l.year) then 5 else 0) + TailScore(p, l)
  {
  }

  /** The thresholds are strict: 90 does not pass the make test, 91 does; 85 / 86 for the model. */
  lemma StrictThresholds(sim: Similarity, wanted: string, l: RawListing)
    ensures sim(Lower(wanted), Lower(FieldOrTitle(l.make, l.title))) == 90 ==> !MakeHit(sim, wanted, l)
    ensures sim(Lower(wanted), Lower(FieldOrTitle(l.make, l.title))) == 91 ==> MakeHit(sim, wanted, l)
    ensures sim(Lower(wanted), Lower(FieldOrTitle(l.model, l.title))) == 85 ==> !ModelHit(sim, wanted, l)
    ensures sim(Lower(wanted), Lower(FieldOrTitle(l.model, l.title))) == 86 ==> ModelHit(sim, wanted, l)
  {
  }

  /** The title is read only when the structured field is missing or empty. */
  lemma TitleOnlyAsFallback(sim: Similarity, wanted: string, l: RawListing, otherTitle: string)
    ensures Present(l.make) ==> (MakeHit(sim, wanted, l) <==> MakeHit(sim, wanted, l.(title := otherTitle)))
    ensures Present(l.model) ==> (ModelHit(sim, wanted, l) <==> ModelHit(sim, wanted, l.(title := otherTitle)))
    ensures !Present(l.make) ==> (MakeHit(sim, wanted, l) <==> sim(Lower(wanted), Lower(l.title)) > 90)
    ensures !Present(l.model) ==> (ModelHit(sim, wanted, l) <==> sim(Lower(wanted), Lower(l.title)) > 85)
  {
  }

  /** The profile with every year bound (flat and per vehicle) removed. */
  function WithoutYearBounds(p: AgentParameters): (q: AgentParameters)
    ensures |q.vehicles| == |p.vehicles|
  {
    p.(yearMin := None, yearMax := None,
       vehicles := seq(|p.vehicles|, i requires 0 <= i < |p.vehicles| =>
         p.vehicles[i].(yearMin := None, yearMax := None)))
  }

  /** A missing or zero listing year never rejects: year bounds then make no difference. */
  lemma AbsentYearNeverRejects(sim: Similarity, l: RawListing, p: AgentParameters)
    requires !IntTruthy(l.year)
    ensures Verdict(sim, l, p) == Verdict(sim, l, WithoutYearBounds(p))
  {
    var q := WithoutYearBounds(p);
    forall i | 0 <= i < |p.vehicles|
      ensures CriterionHolds(sim, p.vehicles[i], l) <==> CriterionHolds(sim, q.vehicles[i], l)
    {
    }
    assert AnyCriterionHolds(sim, p.vehicles, l) <==> AnyCriterionHolds(sim, q.vehicles, l);
  }

  /** Falsy (zero) profile bounds are treated as absent ones. */
  lemma FalsyBoundsIgnored(sim: Similarity, l: RawListing, p: AgentParameters)
    ensures Verdict(sim, l, p.(yearMin := Some(0))) == Verdict(sim, l, p.(yearMin := None))
    ensures Verdict(sim, l, p.(yearMax := Some(0))) == Verdict(sim, l, p.(yearMax := None))
    ensures Verdict(sim, l, p.(priceMax := Some(0.0))) == Verdict(sim, l, p.(priceMax := None))
    ensures Verdict(sim, l, p.(mileageMax := Some(0))) == Verdict(sim, l, p.(mileageMax := None))
  {
    var a, b := p.(yearMin := Some(0)), p.(yearMin := None);
    assert ModeAdmits(sim, a, l) == ModeAdmits(sim, b, l);
    YearCapZeroIgnored(sim, l, p);
    PriceCapZeroIgnored(sim, l, p);
    MileageCapZeroIgnored(sim, l, p);
  }

  lemma YearCapZeroIgnored(sim: Similarity, l: RawListing, p: AgentParameters)
    ensures Verdict(sim, l, p.(yearMax := Some(0))) == Verdict(sim, l, p.(yearMax := None))
  {
    var a, b := p.(yearMax := Some(0)), p.(yearMax := None);
    assert ModeAdmits(sim, a, l) == ModeAdmits(sim, b, l);
  }

  /** A zero year bound of one vehicle entry is ignored like a missing one, at either end. */
  lemma VehicleFalsyBoundsIgnored(sim: Similarity, l: RawListing, p: AgentParameters, k: nat)
    requires k < |p.vehicles|
    ensures var v := p.vehicles[k];
      Verdict(sim, l, p.(vehicles := p.vehicles[k := v.(yearMin := Some(0))]))
      == Verdict(sim, l, p.(vehicles := p.vehicles[k := v.(yearMin := None)]))
    ensures var v := p.vehicles[k];
      Verdict(sim, l, p.(vehicles := p.vehicles[k := v.(yearMax := Some(0))]))
      == Verdict(sim, l, p.(vehicles := p.vehicles[k := v.(yearMax := None)]))
  {
    var v := p.vehicles[k];
    SameCriteriaSameVerdict(sim, l, p, p.vehicles[k := v.(yearMin := Some(0))], p.vehicles[k := v.(yearMin := None)]);
    SameCriteriaSameVerdict(sim, l, p, p.vehicles[k := v.(yearMax := Some(0))], p.vehicles[k := v.(yearMax := None)]);
  }

  /** Two vehicle lists whose entries hold for the same listings give the same verdict. */
  lemma SameCriteriaSameVerdict(sim: Similarity, l: RawListing, p: AgentParameters, xs: seq<VehicleCriteria>, ys: seq<VehicleCriteria>)
    requires |xs| == |ys|
    requires forall i :: 0 <= i < |xs| ==>
      xs[i].make == ys[i].make && xs[i].model == ys[i].model
      && YearWithin(l.year, xs[i].yearMin, xs[i].yearMax) == YearWithin(l.year, ys[i].yearMin, ys[i].yearMax)
    ensures Verdict(sim, l, p.(vehicles := xs)) == Verdict(sim, l, p.(vehicles := ys))
  {
    assert forall i :: 0 <= i < |xs| ==> CriterionHolds(sim, xs[i], l) == CriterionHolds(sim, ys[i], l);
    assert AnyCriterionHolds(sim, xs, l) == AnyCriterionHolds(sim, ys, l);
    assert ModeAdmits(sim, p.(vehicles := xs), l) == ModeAdmits(sim, p.(vehicles := ys), l);
  }

  lemma PriceCapZeroIgnored(sim: Similarity, l: RawListing, p: AgentParameters)
    ensures Verdict(sim, l, p.(priceMax := Some(0.0))) == Verdict(sim, l, p.(priceMax := None))
  {
    var c, d := p.(priceMax := Some(0.0)), p.(priceMax := None);
    assert ModeAdmits(sim, c, l) == ModeAdmits(sim, p, l) == ModeAdmits(sim, d, l);
  }

  lemma MileageCapZeroIgnored(sim: Similarity, l: RawListing, p: AgentParameters)
    ensures Verdict(sim, l, p.(mileageMax := Some(0))) == Verdict(sim, l, p.(mileageMax := None))
  {
    var e, f := p.(mileageMax := Some(0)), p.(mileageMax := None);
    assert ModeAdmits(sim, e, l) == ModeAdmits(sim, p, l) == ModeAdmits(sim, f, l);
  }

  /** A zero price or mileage on the listing is treated as a missing one. */
  lemma FalsyValuesIgnored(sim: Similarity, l: RawListing, p: AgentParameters)
    ensures Verdict(sim, l.(price := Some(0.0)), p) == Verdict(sim, l.(price := None), p)
    ensures Verdict(sim, l.(mileage := Some(0)), p) == Verdict(sim, l.(mileage := None), p)
  {
    ZeroPriceIgnored(sim, l, p);
    ZeroMileageIgnored(sim, l, p);
  }

  lemma ZeroPriceIgnored(sim: Similarity, l: RawListing, p: AgentParameters)
    ensures Verdict(sim, l.(price := Some(0.0)), p) == Verdict(sim, l.(price := None), p)
  {
    var a, b := l.(price := Some(0.0)), l.(price := None);
    assert ModeAdmits(sim, p, a) == ModeAdmits(sim, p, l) == ModeAdmits(sim, p, b) by {
      assert forall i :: 0 <= i < |p.vehicles| ==>
        (CriterionHolds(sim, p.vehicles[i], a) == CriterionHolds(sim, p.vehicles[i], l) == CriterionHolds(sim, p.vehicles[i], b));
      assert forall i :: 0 <= i < |p.makes| ==> (MakeHit(sim, p.makes[i], a) == MakeHit(sim, p.makes[i], b));
      assert forall i :: 0 <= i < |p.models| ==> (ModelHit(sim, p.models[i], a) == ModelHit(sim, p.models[i], b));
    }
  }

  lemma ZeroMileageIgnored(sim: Similarity, l: RawListing, p: AgentParameters)
    ensures Verdict(sim, l.(mileage := Some(0)), p) == Verdict(sim, l.(mileage := None), p)
  {
    var c, d := l.(mileage := Some(0)), l.(mileage := None);
    assert ModeAdmits(sim, p, c) == ModeAdmits(sim, p, l) == ModeAdmits(sim, p, d) by {
      assert forall i :: 0 <= i < |p.vehicles| ==>
        (CriterionHolds(sim, p.vehicles[i], c) == CriterionHolds(sim, p.vehicles[i], l) == CriterionHolds(sim, p.vehicles[i], d));
      assert forall i :: 0 <= i < |p.makes| ==> (MakeHit(sim, p.makes[i], c) == MakeHit(sim, p.makes[i], d));
      assert forall i :: 0 <= i < |p.models| ==> (ModelHit(sim, p.models[i], c) == ModelHit(sim, p.models[i], d));
    }
  }

  /** Price and mileage: a truthy value over a truthy maximum rejects; a truthy value otherwise earns its bonus. */
  lemma PriceAndMileageRule(sim: Similarity, l: RawListing, p: AgentParameters)
    ensures RealTruthy(l.price) && RealTruthy(p.priceMax) && l.price.value > p.priceMax.value
      ==> !Verdict(sim, l, p).isMatch
    ensures IntTruthy(l.mileage) && IntTruthy(p.mileageMax) && l.mileage.value > p.mileageMax.value
      ==> !Verdict(sim, l, p).isMatch
    ensures Verdict(sim, l, p).isMatch && RealTruthy(l.price) ==>
      Verdict(sim, l, p).score == Verdict(sim, l.(price := None), p).score + 10
    ensures Verdict(sim, l, p).isMatch && IntTruthy(l.mileage) ==>
      Verdict(sim, l, p).score == Verdict(sim, l.(mileage := None), p).score + 5
  {
  }

  /** An exclude keyword found in the title rejects, whatever the listing scored. */
  lemma {:induction false} ExcludeKeywordRejects(sim: Similarity, l: RawListing, p: AgentParameters, k: nat)
    requires k < |p.excludeKeywords| && Contains(Lower(l.title), Lower(p.excludeKeywords[k]))
    ensures Verdict(sim, l, p) == MatchResult(false, 0)
  {
    assert Excluded(p, l);
  }

  /** An empty exclude keyword rejects every listing. */
  lemma EmptyKeywordRejectsAll(sim: Similarity, l: RawListing, p: AgentParameters)
    requires "" in p.excludeKeywords
    ensures Verdict(sim, l, p) == MatchResult(false, 0)
  {
    var k :| 0 <= k < |p.excludeKeywords| && p.excludeKeywords[k] == "";
    assert OccursAt(Lower(l.title), Lower(""), 0);
    ExcludeKeywordRejects(sim, l, p, k);
  }

  /** `features_any` never decides admission. */
  lemma FeaturesNeverReject(sim: Similarity, l: RawListing, p: AgentParameters, features: seq<string>)
    ensures Verdict(sim, l, p).isMatch == Verdict(sim, l, p.(featuresAny := features)).isMatch
  {
  }

  /** One more feature adds exactly 5 when it occurs in the title, and nothing otherwise. */
  lemma FeatureBonusPerHit(sim: Similarity, l: RawListing, p: AgentParameters, f: string)
    requires Verdict(sim, l, p).isMatch
    ensures Verdict(sim, l, p.(featuresAny := p.featuresAny + [f])).score ==
      Verdict(sim, l, p).score + (if Contains(Lower(l.title), Lower(f)) then 5 else 0)
  {
    var fs := p.featuresAny + [f];
    assert fs[..|fs| - 1] == p.featuresAny;
  }

  /** The fields the matcher never reads: `features_all` and `location`. */
  lemma UnreadFields(sim: Similarity, l: RawListing, p: AgentParameters,
                     all: seq<string>, loc: Option<LocationConfig>)
    ensures Verdict(sim, l, p) == Verdict(sim, l, p.(featuresAll := all, location := loc))
  {
  }

  /** The default profile admits every listing, scoring only year, price and mileage. */
  lemma DefaultProfileAdmitsAll(sim: Similarity, l: RawListing)
    ensures Verdict(sim, l, AgentParameters()) == MatchResult(true,
      (if IntTruthy(l.year) then 5 else 0) + (if RealTruthy(l.price) then 10 else 0)
      + (if IntTruthy(l.mileage) then 5 else 0))
  {
  }

  /** A similarity that gives 100 to equal texts and 0 otherwise, for worked examples. */
  function Exact(): Similarity {
    (a: string, b: string) => if a == b then 100 else 0
  }

  /** A Toyota Supra at 45,000 under a 50,000 cap with flat Toyota/Supra criteria scores 40. */
  lemma ScenarioFlatToyota()
    ensures Verdict(Exact(),
      RawListing("t1", "cars_com", "", "Toyota Supra", price := Some(45000.0), make := Some("Toyota"), model := Some("Supra")),
      AgentParameters(makes := ["Toyota"], models := ["Supra"], priceMax := Some(50000.0)))
      == MatchResult(true, 40)
  {
    var l := RawListing("t1", "cars_com", "", "Toyota Supra", price := Some(45000.0), make := Some("Toyota"), model := Some("Supra"));
    var p := AgentParameters(makes := ["Toyota"], models := ["Supra"], priceMax := Some(50000.0));
    assert MakeHit(Exact(), p.makes[0], l);
    assert ModelHit(Exact(), p.models[0], l);
    assert Admits(Exact(), p, l);
  }

  /** A listing that matches only the second of two vehicles is admitted with 30. */
  lemma ScenarioSecondVehicle()
    ensures Verdict(Exact(),
      RawListing("p1", "marketcheck", "", "Porsche 911", year := Some(2021), make := Some("Porsche"), model := Some("911")),
      AgentParameters(vehicles := [VehicleCriteria("Ferrari", "F40"), VehicleCriteria("Porsche", "911")]))
      == MatchResult(true, 30)
  {
    var l := RawListing("p1", "marketcheck", "", "Porsche 911", year := Some(2021), make := Some("Porsche"), model := Some("911"));
    var v := VehicleCriteria("Porsche", "911");
    assert CriterionHolds(Exact(), v, l);
    assert [VehicleCriteria("Ferrari", "F40"), v][1] == v;
  }

  /** An otherwise admissible listing whose title mentions an excluded keyword is rejected with 0. */
  lemma ScenarioSalvageExcluded()
    ensures Verdict(Exact(),
      RawListing("s1", "carfax", "", "2020 Porsche 911 - Salvage Title", price := Some(90000.0), make := Some("Porsche"), model := Some("911")),
      AgentParameters(makes := ["Porsche"], models := ["911"], excludeKeywords := ["salvage"]))
      == MatchResult(false, 0)
  {
    var title := "2020 Porsche 911 - Salvage Title";
    assert Lower(title)[19..26] == "salvage";
    assert OccursAt(Lower(title), Lower("salvage"), 19);
    var l := RawListing("s1", "carfax", "", title, price := Some(90000.0), make := Some("Porsche"), model := Some("911"));
    var p := AgentParameters(makes := ["Porsche"], models := ["911"], excludeKeywords := ["salvage"]);
    ContainsIff(Lower(title), Lower("salvage"));
    ExcludeKeywordRejects(Exact(), l, p, 0);
  }
}
