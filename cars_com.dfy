/**
 * `src/data/providers/cars_com.py`: the search URL with its Raptor special
 * case, the digits-only price parser with its cap, the `listing/<digits>`
 * external id, and the per-card extraction.
 */
module CarsCom {
  import opened Wrappers
  import opened Text
  import opened PyJson
  import opened Config
  import opened Listings
  import opened FilterEngine
  import opened Scraping

  const Source: string := "cars_com"
  const Base: string := "https://www.cars.com/shopping/results/"
  const Origin: SiteOrigin := "https://www.cars.com"
  const RaptorModel: string := "ford-f-150-raptor"
  const FixedArea: string := "&zip=60601&distance=all"
  /** Prices above this are taken for run-together numbers and dropped. */
  const PriceCap: nat := 10000000

  /** `search_model`: the Raptor slug for a Ford Raptor, `make-model` otherwise. */
  function SearchModel(make: string, model: string): (r: string)
    ensures make == "ford" && Contains(model, "raptor") ==> r == RaptorModel
    ensures !(make == "ford" && Contains(model, "raptor")) ==> r == make + "-" + model
    ensures StartsWith(r, make + "-")
  {
    if make == "ford" && Contains(model, "raptor") then RaptorModel
    else
      ConcatEnds(make + "-", model);
      make + "-" + model
  }

  function WithTail(pre: string, year: string): string {
    pre + (FixedArea + year)
  }

  lemma WithTailShape(pre: string, year: string)
    ensures StartsWith(WithTail(pre, year), pre + FixedArea)
    ensures EndsWith(WithTail(pre, year), year)
  {
    ConcatEnds(pre + FixedArea, year);
    assert WithTail(pre, year) == (pre + FixedArea) + year;
  }

  /** The search URL before its fixed area and year bound. */
  function Head(make: string, model: string): string {
    Base + "?makes[]=" + make + "&models[]=" + SearchModel(make, model)
  }

  /** The search URL for a lowercased make, a slugged model and the lower year bound. */
  function Url(make: string, model: string, yearMin: Option<int>): string {
    WithTail(Head(make, model), YearParam("year_min", yearMin))
  }

  /** The search URL, as `search` builds it from the first make and model. */
  function SearchUrl(p: AgentParameters): string {
    Url(Lower(FirstOrEmpty(p.makes)), Slug(FirstOrEmpty(p.models)), p.yearMin)
  }

  /** The URL names the make and the search model and always carries `zip=60601&distance=all`. */
  lemma UrlNamesVehicle(make: string, model: string, yearMin: Option<int>)
    ensures StartsWith(Url(make, model, yearMin), Base + "?makes[]=" + make + "&models[]=" + SearchModel(make, model) + FixedArea)
  {
    WithTailShape(Head(make, model), YearParam("year_min", yearMin));
  }

  /** The URL ends in `&year_min=` exactly when the lower year bound is truthy. */
  lemma UrlYear(make: string, model: string, yearMin: Option<int>)
    ensures IntTruthy(yearMin) ==> EndsWith(Url(make, model, yearMin), "&year_min=" + IntToString(yearMin.value))
    ensures !IntTruthy(yearMin) ==> EndsWith(Url(make, model, yearMin), FixedArea)
  {
    TailYear(Head(make, model), yearMin);
  }

  lemma TailYear(pre: string, yearMin: Option<int>)
    ensures IntTruthy(yearMin) ==> EndsWith(WithTail(pre, YearParam("year_min", yearMin)), "&year_min=" + IntToString(yearMin.value))
    ensures !IntTruthy(yearMin) ==> EndsWith(WithTail(pre, YearParam("year_min", yearMin)), FixedArea)
  {
    var y := YearParam("year_min", yearMin);
    if y == [] {
      assert WithTail(pre, y) == pre + FixedArea;
      ConcatEnds(pre, FixedArea);
    } else {
      assert y == "&year_min=" + IntToString(yearMin.value);
      WithTailShape(pre, y);
    }
  }

  /**
   * `_parse_price`: every digit of the text, cents included, as one number;
   * `None` without digits or above the cap.
   */
  function ParsePrice(text: string): (r: Option<real>)
    ensures r.None? <==> DigitsOf(text) == [] || DigitsValue(DigitsOf(text)) > PriceCap
    ensures r.Some? ==> r.value == DigitsValue(DigitsOf(text)) as real && r.value <= PriceCap as real
  {
    if text == [] then None
    else
      var cleaned := DigitsOf(text);
      if cleaned == [] then None
      else if DigitsValue(cleaned) > PriceCap then None
      else Some(DigitsValue(cleaned) as real)
  }

  /** `x` followed by `n` more digits worth `y`: `x * 10^n + y`. */
  function Shift(x: nat, n: nat, y: nat): nat {
    x * Pow10(n) + y
  }

  /** One more digit `d` after `Shift(x, n, y)` is `Shift(x, n + 1, y * 10 + d)`. */
  lemma ShiftDigit(x: nat, n: nat, y: nat, d: nat)
    ensures Shift(x, n, y) * 10 + d == Shift(x, n + 1, y * 10 + d)
  {
    var p := Pow10(n);
    assert Pow10(n + 1) == p * 10;
    assert (x * p + y) * 10 + d == x * (p * 10) + (y * 10 + d);
  }

  lemma {:induction false} DigitsValueConcat(a: string, b: string)
    requires AllDigits(a) && AllDigits(b)
    ensures AllDigits(a + b)
    ensures DigitsValue(a + b) == Shift(DigitsValue(a), |b|, DigitsValue(b))
    decreases |b|
  {
    if b == [] {
      assert a + b == a;
    } else {
      var c := a + b;
      var b' := b[..|b| - 1];
      assert c[..|c| - 1] == a + b';
      assert c[|c| - 1] == b[|b| - 1];
      DigitsValueConcat(a, b');
      var d := b[|b| - 1] as int - '0' as int;
      assert DigitsValue(c) == DigitsValue(a + b') * 10 + d;
      assert DigitsValue(b) == DigitsValue(b') * 10 + d;
      ShiftDigit(DigitsValue(a), |b'|, DigitsValue(b'), d);
    }
  }

  /**
   * The dollars and the cents of a price run together: `$D.C` reads as
   * `D * 10^len(C) + C`, e.g. `$12.50` as `1250`, unless that exceeds the cap.
   */
  lemma CentsRunTogether(d: nat, c: nat)
    ensures ParsePrice("$" + NatToString(d) + "." + NatToString(c)) == Capped(Shift(d, |NatToString(c)|, c))
  {
    DigitRunsTogether(NatToString(d), NatToString(c));
  }

  lemma DigitRunsTogether(ds: string, cs: string)
    requires ds != [] && AllDigits(ds) && AllDigits(cs)
    ensures ParsePrice("$" + ds + "." + cs) == Capped(Shift(DigitsValue(ds), |cs|, DigitsValue(cs)))
  {
    DigitsOfConcat("$" + ds, "." + cs);
    DigitsOfConcat("$", ds);
    DigitsOfConcat(".", cs);
    DigitsOfDigits(ds);
    DigitsOfDigits(cs);
    assert "$" + ds + "." + cs == ("$" + ds) + ("." + cs);
    assert DigitsOf("$" + ds + "." + cs) == ds + cs;
    DigitsValueConcat(ds, cs);
    PriceOfDigits("$" + ds + "." + cs, Shift(DigitsValue(ds), |cs|, DigitsValue(cs)));
  }

  lemma PriceOfDigits(text: string, v: nat)
    requires DigitsOf(text) != [] && DigitsValue(DigitsOf(text)) == v
    ensures ParsePrice(text) == Capped(v)
  {
  }

  /** What a run of digits worth `v` parses to: itself up to the cap, nothing above. */
  function Capped(v: nat): Option<real> {
    if v <= PriceCap then Some(v as real) else None
  }

  /** A whole price up to the cap reads back; one above it is dropped. */
  lemma PriceCapBoundary(n: nat)
    ensures ParsePrice(NatToString(n)) == if n <= PriceCap then Some(n as real) else None
  {
    DigitsOfDigits(NatToString(n));
  }

  /** `listing/` followed by a digit starts at `i`: where `listing/(\d+)` can match. */
  predicate IdAt(url: string, i: int) {
    OccursAt(url, "listing/", i) && i + 8 < |url| && IsDigit(url[i + 8])
  }

  function IdFrom(url: string, i: nat): (r: Option<nat>)
    ensures r.Some? ==> i <= r.value && IdAt(url, r.value)
    ensures r.Some? ==> forall j :: i <= j < r.value ==> !IdAt(url, j)
    ensures r.None? ==> forall j :: i <= j ==> !IdAt(url, j)
    decreases |url| - i
  {
    if i + 8 >= |url| then None
    else if IdAt(url, i) then Some(i)
    else IdFrom(url, i + 1)
  }

  /**
   * `r` is the group `listing/(\d+)` captures at `i`, the first place it can
   * match: the whole run of digits after `listing/`.
   */
  ghost predicate IdGroup(url: string, i: int, r: string) {
    && IdAt(url, i)
    && (forall j :: 0 <= j < i ==> !IdAt(url, j))
    && r != [] && AllDigits(r)
    && i + 8 + |r| <= |url| && r == url[i + 8..i + 8 + |r|]
    && (i + 8 + |r| == |url| || !IsDigit(url[i + 8 + |r|]))
  }

  /**
   * `re.search(r'listing/(\d+)', url)`'s group, or the whole URL without a
   * match: the digits after the first `listing/` that is followed by a digit.
   */
  function ExternalId(url: string): (r: string)
    ensures (forall i :: !IdAt(url, i)) ==> r == url
    ensures (exists i :: IdAt(url, i)) ==> exists i :: IdGroup(url, i, r)
  {
    match IdFrom(url, 0)
    case None => url
    case Some(i) =>
      var n := RunLength(url, i + 8, IsDigit);
      var r := url[i + 8..i + 8 + n];
      assert r[0] == url[i + 8];
      assert IdGroup(url, i, r);
      r
  }

  /**
   * One card: `None` when its title is empty or its link has no `href`;
   * otherwise the listing with the absolutised URL, the listing number (or
   * the URL) as external id, the year of the title, the capped digits-only
   * price and the mileage.
   */
  function CardListing(card: DealerCard): (r: Option<RawListing>)
    ensures r.Some? <==> ElementText(card.title) != [] && LinkHref(card.link).Some?
    ensures r.Some? ==>
      var l := r.value;
      && l.source == Source
      && l.title == ElementText(card.title) && l.title != []
      && l.url == Absolutise(Origin, LinkHref(card.link)).value
      && l.externalId == ExternalId(l.url)
      && l.year == TitleYear(l.title)
      && l.price == ParsePrice(ElementText(card.price))
      && l.mileage == ParseMileage(ElementText(card.mileage))
  {
    var title := ElementText(card.title);
    if title == [] then None
    else
      match Absolutise(Origin, LinkHref(card.link))
      case None => None
      case Some(url) =>
        var priceText := ElementText(card.price);
        var mileageText := ElementText(card.mileage);
        Some(RawListing(
          externalId := ExternalId(url),
          source := Source,
          url := url,
          title := title,
          price := ParsePrice(priceText),
          mileage := ParseMileage(mileageText),
          year := TitleYear(title),
          rawData := map["price_text" := JStr(priceText), "mileage_text" := JStr(mileageText)]))
  }
}
