/**
 * `src/data/providers/bring_a_trailer.py`: the per-card extraction, with
 * the year taken from the URL when the title has none, the price text taken
 * from the card's text when there is no price element, and the URL slug as
 * external id.  The search itself ignores the profile: it reads the live
 * auctions page.
 */
module BringATrailer {
  import opened Wrappers
  import opened Text
  import opened PyJson
  import opened Listings
  import opened FilterEngine
  import opened Scraping

  const Source: string := "bringatrailer"
  const Origin: SiteOrigin := "https://bringatrailer.com"

  /**
   * One auction card: its link (the card itself when it is an `a`, its first
   * `a` otherwise), its title and price elements, and all of its text.
   */
  datatype AuctionCard = AuctionCard(link: Link, title: Option<string>, price: Option<string>, text: string)

  /** `/dddd-` starts at `i`: where `/(\d{4})-` can match. */
  predicate YearSlugAt(url: string, i: int) {
    0 <= i && i + 6 <= |url| && url[i] == '/' && FourDigitsAt(url, i + 1) && url[i + 5] == '-'
  }

  function YearSlugFrom(url: string, i: nat): (r: Option<nat>)
    ensures r.Some? ==> i <= r.value && YearSlugAt(url, r.value)
    ensures r.Some? ==> forall j :: i <= j < r.value ==> !YearSlugAt(url, j)
    ensures r.None? ==> forall j :: i <= j ==> !YearSlugAt(url, j)
    decreases |url| - i
  {
    if i + 6 > |url| then None
    else if YearSlugAt(url, i) then Some(i)
    else YearSlugFrom(url, i + 1)
  }

  /** A `/dddd-` starts at `i` and at no earlier position. */
  predicate FirstYearSlugAt(url: string, i: int) {
    YearSlugAt(url, i) && forall j :: 0 <= j < i ==> !YearSlugAt(url, j)
  }

  /** The year of the first `/dddd-` in the URL. */
  function UrlYear(url: string): (r: Option<int>)
    ensures r.None? <==> forall i :: !YearSlugAt(url, i)
    ensures r.Some? ==> exists i :: FirstYearSlugAt(url, i) && r.value == DigitsValue(url[i + 1..i + 5])
  {
    match YearSlugFrom(url, 0)
    case None => None
    case Some(i) => assert FirstYearSlugAt(url, i); Some(DigitsValue(url[i + 1..i + 5]))
  }

  /** A URL whose first `/` opens a `/dddd-` slug gives that slug's year, whatever follows. */
  lemma {:induction false} UrlYearOfFirstSlug(pre: string, y: nat, rest: string)
    requires 1000 <= y < 10000
    requires '/' !in pre
    ensures UrlYear(pre + "/" + NatToString(y) + "-" + rest) == Some(y)
  {
    FourDigitYear(y);
    var d := NatToString(y);
    var slug := "/" + d + "-";
    assert slug[0] == '/' && slug[1..5] == d && slug[5] == '-';
    var url := pre + slug + rest;
    assert url == pre + "/" + d + "-" + rest;
    var n := |pre|;
    assert url[n..n + 6] == slug;
    assert url[n + 1..n + 5] == slug[1..5];
    assert YearSlugAt(url, n);
    forall j | 0 <= j < n
      ensures !YearSlugAt(url, j)
    {
      assert url[j] == pre[j];
    }
    var r := UrlYear(url);
    assert r.Some?;
    var i :| FirstYearSlugAt(url, i) && r.value == DigitsValue(url[i + 1..i + 5]);
    assert i == n;
  }

  /**
   * The year: the title's first four digits; when that gives no year or
   * year 0 and there is a URL, the URL's `/dddd-` year if it has one.
   */
  function Year(title: string, url: string): (r: Option<int>)
    ensures IntTruthy(TitleYear(title)) || url == [] ==> r == TitleYear(title)
    ensures !IntTruthy(TitleYear(title)) && url != [] && UrlYear(url).Some? ==> r == UrlYear(url)
    ensures !IntTruthy(TitleYear(title)) && UrlYear(url).None? ==> r == TitleYear(title)
  {
    var year := TitleYear(title);
    if !IntTruthy(year) && url != [] then
      match UrlYear(url)
      case Some(y) => Some(y)
      case None => year
    else year
  }

  predicate DigitOrComma(c: char) { IsDigit(c) || c == ',' }

  /** `$` followed by a digit or comma starts at `i`: where `\$[\d,]+` can match. */
  predicate DollarAt(s: string, i: int) {
    0 <= i && i + 1 < |s| && s[i] == '$' && DigitOrComma(s[i + 1])
  }

  function DollarFrom(s: string, i: nat): (r: Option<nat>)
    ensures r.Some? ==> i <= r.value && DollarAt(s, r.value)
    ensures r.Some? ==> forall j :: i <= j < r.value ==> !DollarAt(s, j)
    ensures r.None? ==> forall j :: i <= j ==> !DollarAt(s, j)
    decreases |s| - i
  {
    if i + 1 >= |s| then None
    else if DollarAt(s, i) then Some(i)
    else DollarFrom(s, i + 1)
  }

  /**
   * `re.search(r'\$[\d,]+', text).group(0)`, or `""`: the first `$` that is
   * followed by digits or commas, with all of them.
   */
  function DollarText(text: string): (r: string)
    ensures r == [] <==> forall i :: !DollarAt(text, i)
    ensures r != [] ==> exists i ::
      && DollarAt(text, i)
      && (forall j :: 0 <= j < i ==> !DollarAt(text, j))
      && i + |r| <= |text| && r == text[i..i + |r|]
      && (i + |r| == |text| || !DigitOrComma(text[i + |r|]))
    ensures r != [] ==> |r| >= 2 && r[0] == '$' && forall k :: 1 <= k < |r| ==> DigitOrComma(r[k])
  {
    match DollarFrom(text, 0)
    case None => []
    case Some(i) =>
      var n := RunLength(text, i + 1, DigitOrComma);
      var r := text[i..i + 1 + n];
      assert |r| == 1 + n && r == text[i..i + |r|];
      r
  }

  /** The price text: the price element's text, or the first dollar amount of the card's text. */
  function PriceText(card: AuctionCard): string {
    match card.price
    case Some(_) => ElementText(card.price)
    case None => DollarText(card.text)
  }

  const Slash: set<char> := {'/'}

  /** `url.strip("/").split("/")[-1] if url else title`. */
  function ExternalId(url: string, title: string): (r: string)
    ensures url == [] ==> r == title
    ensures url != [] ==> '/' !in r
    ensures url != [] ==> var s := Strip(url, Slash);
      |r| <= |s| && r == s[|s| - |r|..] && (|r| < |s| ==> s[|s| - |r| - 1] == '/')
  {
    if url != [] then AfterLast(Strip(url, Slash), '/') else title
  }

  /** The slug of an auction URL `.../listing/<slug>/` is its external id. */
  lemma SlugIsExternalId(pre: string, slug: string)
    requires pre != [] && pre[0] != '/'
    requires slug != [] && '/' !in slug
    ensures ExternalId(pre + "/" + slug + "/", "") == slug
  {
    var url := pre + "/" + slug + "/";
    var body := pre + "/" + slug;
    assert url == body + "/";
    assert StripLeft(url, Slash) == url;
    assert url[..|url| - 1] == body;
    assert body[|body| - 1] == slug[|slug| - 1];
    assert StripRight(url, Slash) == StripRight(body, Slash) == body;
    AfterLastSuffix(pre, slug);
  }

  lemma {:induction false} AfterLastSuffix(pre: string, slug: string)
    requires '/' !in slug
    ensures AfterLast(pre + "/" + slug, '/') == slug
    decreases |slug|
  {
    var s := pre + "/" + slug;
    if slug == [] {
      assert s[|s| - 1] == '/';
    } else {
      var init := slug[..|slug| - 1];
      assert s[..|s| - 1] == pre + "/" + init;
      assert s[|s| - 1] == slug[|slug| - 1];
      AfterLastSuffix(pre, init);
      assert init + [slug[|slug| - 1]] == slug;
    }
  }

  /**
   * One card: `None` only when its link has no `href`; a card without a
   * title is still a listing.  The listing has the absolutised URL, the URL
   * slug (or the title) as external id, the year with its URL fallback, the
   * parsed price text and no mileage.
   */
  function CardListing(card: AuctionCard): (r: Option<RawListing>)
    ensures r.Some? <==> LinkHref(card.link).Some?
    ensures r.Some? ==>
      var l := r.value;
      && l.source == Source
      && l.title == ElementText(card.title)
      && l.url == Absolutise(Origin, LinkHref(card.link)).value
      && l.externalId == ExternalId(l.url, l.title)
      && l.year == Year(l.title, l.url)
      && l.price == ParsePrice(PriceText(card))
      && l.mileage.None?
  {
    var title := ElementText(card.title);
    match Absolutise(Origin, LinkHref(card.link))
    case None => None
    case Some(url) =>
      var priceText := PriceText(card);
      Some(RawListing(
        externalId := ExternalId(url, title),
        source := Source,
        url := url,
        title := title,
        year := Year(title, url),
        price := ParsePrice(priceText),
        rawData := map["full_title" := JStr(title), "price_text" := JStr(priceText)]))
  }
}
