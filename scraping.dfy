/**
 * The pure pieces the Playwright providers share: the text of an optional
 * page element, the `href` of a link, absolutising a relative `href`, the
 * two number parsers, the year of a title and the last path segment used
 * as an external id.  A page is given to the model as what the selectors
 * found on it.
 */
module Scraping {
  import opened Wrappers
  import opened Text
  import Config
  import opened PyJson
  import opened Listings

  /** `(await el.inner_text()).strip() if el else ""`. */
  function ElementText(element: Option<string>): (r: string)
    ensures element.None? ==> r == []
    ensures r != [] ==> r[0] !in Whitespace && r[|r| - 1] !in Whitespace
  {
    match element
    case None => []
    case Some(t) =>
      var l := StripLeft(t, Whitespace);
      var r := StripRight(l, Whitespace);
      assert r != [] ==> r[0] == l[0];
      r
  }

  /** A card's link element: absent, or present with an `href` attribute that may be missing. */
  datatype Link = NoLink | Link(href: Option<string>)

  /** `await link_el.get_attribute("href") if link_el else ""`; `None` is Python's `None`. */
  function LinkHref(link: Link): Option<string> {
    match link
    case NoLink => Some([])
    case Link(h) => h
  }

  /** A site origin such as `https://www.carfax.com`. */
  type SiteOrigin = s: string | StartsWith(s, "http") witness "http"

  /** `if url_attr and not url_attr.startswith("http"): url_attr = origin + url_attr`. */
  function Absolutise(origin: SiteOrigin, href: Option<string>): (r: Option<string>)
    ensures r.Some? <==> href.Some?
    ensures r.Some? ==> (r.value == [] <==> href.value == [])
    ensures r.Some? && r.value != [] ==> StartsWith(r.value, "http")
    ensures r.Some? ==> |href.value| <= |r.value| && r.value[|r.value| - |href.value|..] == href.value
    ensures href.Some? && StartsWith(href.value, "http") ==> r == href
  {
    match href
    case None => None
    case Some(h) =>
      if h != [] && !StartsWith(h, "http") then
        assert (origin + h)[..4] == origin[..4];
        Some(origin + h)
      else href
  }

  /** Absolutising an already absolutised link changes nothing. */
  lemma AbsolutiseIdempotent(origin: SiteOrigin, href: Option<string>)
    ensures Absolutise(origin, Absolutise(origin, href)) == Absolutise(origin, href)
  {
  }

  /** The card fields of the dealer sites (Carfax, Cars.com, AutoNation). */
  datatype DealerCard = DealerCard(
    title: Option<string>,
    link: Link,
    price: Option<string>,
    mileage: Option<string>)

  /**
   * `_parse_mileage`: the digits of the text as an integer; `None` when the
   * text has no digit (empty text included, where `int("")` raises).
   */
  function ParseMileage(text: string): (r: Option<int>)
    ensures r.None? <==> DigitsOf(text) == []
    ensures r.Some? ==> 0 <= r.value && r.value == DigitsValue(DigitsOf(text))
  {
    if text == [] then None
    else match ParseInt(DigitsOf(text))
      case None => None
      case Some(n) => Some(n)
  }

  /**
   * `_parse_price` of Carfax, Bring a Trailer and AutoNation: the digits and
   * dots of the text as a decimal; `None` when there is no digit or more than
   * one dot, where `float(...)` raises.
   */
  function ParsePrice(text: string): (r: Option<real>)
    ensures r.None? <==> DigitsOf(text) == [] || CountOf(text, '.') >= 2
    ensures r.Some? ==> r.value >= 0.0
    ensures r.Some? && CountOf(text, '.') == 0 ==> r.value == DigitsValue(DigitsOf(text)) as real
    ensures forall k {:trigger DotAt(text, k)} :: DotAt(text, k) && CountOf(text, '.') == 1 && r.Some? ==>
      r.value == Decimal(DigitsOf(text[..k]), DigitsOf(text[k + 1..]))
  {
    DotsKept(text);
    OneDotPrice(text);
    var cleaned := DigitsAndDotsOf(text);
    if text == [] then None
    else
      if CountOf(text, '.') == 0 then
        NoDotsAllDigits(cleaned);
        ParseDecimal(cleaned)
      else ParseDecimal(cleaned)
  }

  /** A text with one dot: the digits before it are the whole part, the digits after it the fraction. */
  lemma OneDotPrice(text: string)
    ensures forall k {:trigger DotAt(text, k)} :: DotAt(text, k) && CountOf(text, '.') == 1 && ParseDecimal(DigitsAndDotsOf(text)).Some? ==>
      ParseDecimal(DigitsAndDotsOf(text)).value == Decimal(DigitsOf(text[..k]), DigitsOf(text[k + 1..]))
  {
    forall k | DotAt(text, k) && CountOf(text, '.') == 1
      ensures DigitsAndDotsOf(text) == DigitsOf(text[..k]) + "." + DigitsOf(text[k + 1..])
    {
      assert text == text[..k] + "." + text[k + 1..];
      OneDotSplit(text[..k], text[k + 1..]);
    }
    forall k | DotAt(text, k) && CountOf(text, '.') == 1
      ensures ParseDecimal(DigitsAndDotsOf(text)) == if DigitsOf(text[..k]) == [] && DigitsOf(text[k + 1..]) == [] then None
        else Some(Decimal(DigitsOf(text[..k]), DigitsOf(text[k + 1..])))
    {
      DecimalOfParts(DigitsOf(text[..k]), DigitsOf(text[k + 1..]));
    }
  }

  /** Around the only dot of a text, filtering to digits and dots keeps the digits of each side. */
  lemma OneDotSplit(pre: string, post: string)
    requires CountOf(pre + "." + post, '.') == 1
    ensures DigitsAndDotsOf(pre + "." + post) == DigitsOf(pre) + "." + DigitsOf(post)
  {
    CountOfConcat(pre + ".", post, '.');
    CountOfConcat(pre, ".", '.');
    assert CountOf(".", '.') == 1;
    NoDotsDigitsOnly(pre);
    NoDotsDigitsOnly(post);
    DigitsAndDotsOfConcat(pre + ".", post);
    DigitsAndDotsOfConcat(pre, ".");
    assert DigitsAndDotsOf(".") == ".";
  }

  /** Digits framed by text without digits: the frame does not change the digits. */
  lemma DigitsInFrame(a: string, n: nat, b: string)
    requires DigitsOf(a) == [] && DigitsOf(b) == []
    ensures DigitsOf(a + NatToString(n) + b) == NatToString(n)
  {
    DigitsOfConcat(a + NatToString(n), b);
    DigitsOfConcat(a, NatToString(n));
    DigitsOfDigits(NatToString(n));
  }

  /** A rendered mileage reads back: `"about " + str(n) + " mi"` parses to `n`. */
  lemma MileageRoundTrip(a: string, n: nat, b: string)
    requires DigitsOf(a) == [] && DigitsOf(b) == []
    ensures ParseMileage(a + NatToString(n) + b) == Some(n)
  {
    DigitsInFrame(a, n, b);
  }

  /** A rendered whole price reads back: `"$" + str(n)` parses to `n`. */
  lemma PriceRoundTrip(a: string, n: nat, b: string)
    requires DigitsOf(a) == [] && DigitsOf(b) == []
    requires CountOf(a, '.') == 0 && CountOf(b, '.') == 0
    ensures ParsePrice(a + NatToString(n) + b) == Some(n as real)
  {
    var t := a + NatToString(n) + b;
    DigitsInFrame(a, n, b);
    CountOfConcat(a + NatToString(n), b, '.');
    CountOfConcat(a, NatToString(n), '.');
    NoDotsInDigits(NatToString(n));
  }

  /** A rendered decimal price reads back: `"$" + "12.50"` parses to 12.5. */
  lemma DecimalPriceRoundTrip(a: string, w: string, f: string, b: string)
    requires DigitsAndDotsOf(a) == [] && DigitsAndDotsOf(b) == []
    requires AllDigits(w) && AllDigits(f) && w + f != []
    ensures ParsePrice(a + w + "." + f + b) == Some(Decimal(w, f))
  {
    var pre, post := a + w, f + b;
    var text := pre + "." + post;
    assert a + w + "." + f + b == text;
    DotsKept(a);
    DotsKept(b);
    NoDotsInDigits(w);
    NoDotsInDigits(f);
    CountOfConcat(a, w, '.');
    CountOfConcat(f, b, '.');
    OneDotText(pre, post);
    assert DigitsOf(a) == [] && DigitsOf(b) == [] by {
      assert DigitsOf(DigitsAndDotsOf(a)) == DigitsOf(a);
      assert DigitsOf(DigitsAndDotsOf(b)) == DigitsOf(b);
    }
    DigitsOfConcat(a, w);
    DigitsOfConcat(f, b);
    DigitsOfDigits(w);
    DigitsOfDigits(f);
    assert DigitsOf(pre) == w && DigitsOf(post) == f;
    DigitsOfConcat(pre + ".", post);
    DigitsOfConcat(pre, ".");
    assert DigitsOf(text) == w + f;
    PriceAroundDot(pre, post);
  }

  /** The price of a text with one dot, read through the `ParsePrice` contract at that dot. */
  lemma PriceAroundDot(pre: string, post: string)
    requires CountOf(pre + "." + post, '.') == 1 && DigitsOf(pre + "." + post) != []
    ensures ParsePrice(pre + "." + post) == Some(Decimal(DigitsOf(pre), DigitsOf(post)))
  {
    var text := pre + "." + post;
    var k := |pre|;
    assert text[..k] == pre && text[k + 1..] == post && DotAt(text, k);
  }

  /** The price `"$12.50"` of a Bring a Trailer card reads as 12.5. */
  lemma CentsPrice()
    ensures ParsePrice("$12.50") == Some(12.5)
  {
    assert DigitsAndDotsOf("$") == [] && DigitsAndDotsOf("") == [];
    DecimalPriceRoundTrip("$", "12", "50", "");
    assert "$" + "12" + "." + "50" + "" == "$12.50";
    TwelveFifty();
  }

  lemma TwelveFifty()
    ensures Decimal("12", "50") == 12.5
  {
    assert "12"[..1] == "1" && "50"[..1] == "5";
    assert DigitsValue("12") == 12;
    assert "50"[1..] == "0" && "0"[1..] == [];
    assert Fraction("50") == 0.5;
  }

  lemma OneDotText(pre: string, post: string)
    requires CountOf(pre, '.') == 0 && CountOf(post, '.') == 0
    ensures CountOf(pre + "." + post, '.') == 1
  {
    CountOfConcat(pre + ".", post, '.');
    CountOfConcat(pre, ".", '.');
    assert CountOf(".", '.') == 1;
  }

  /** `int(re.search(r'(\d{4})', title).group(1))`, or `None` without a match. */
  function TitleYear(title: string): (r: Option<int>)
    ensures r.None? <==> forall i :: !FourDigitsAt(title, i)
    ensures r.Some? ==> 0 <= r.value < 10000
    ensures r.Some? ==> exists i :: FirstFourDigitsAt(title, i) && r.value == DigitsValue(title[i..i + 4])
  {
    match FirstFourDigits(title)
    case None => None
    case Some(y) => Some(y)
  }

  /** A title whose first digits are a four-digit year gives that year, whatever follows. */
  lemma TitleYearOfLeadingYear(pre: string, y: nat, rest: string)
    requires 1000 <= y < 10000
    requires forall k :: 0 <= k < |pre| ==> !IsDigit(pre[k])
    ensures TitleYear(pre + NatToString(y) + rest) == Some(y)
  {
    FourDigitYear(y);
    FirstFourDigitsAfter(pre, NatToString(y), rest);
  }

  /** `url_attr.split("/")[-1] if url_attr else title`. */
  function LastSegmentOr(url: string, title: string): (r: string)
    ensures url == [] ==> r == title
    ensures url != [] ==> '/' !in r && |r| <= |url| && r == url[|url| - |r|..]
    ensures url != [] && |r| < |url| ==> url[|url| - |r| - 1] == '/'
  {
    if url != [] then AfterLast(url, '/') else title
  }

  /**
   * `params.get("makes", [""])[0]` as written: the parameters always carry
   * the key, so the default never applies and an empty list raises
   * (`None` here).
   */
  function FirstAsWritten(xs: seq<string>): (r: Option<string>)
    ensures r.None? <==> xs == []
    ensures r.Some? ==> r.value == xs[0]
  {
    if xs == [] then None else Some(xs[0])
  }

  /** A flat profile without makes makes every dealer search raise. */
  lemma EmptyMakesRaise()
    ensures FirstAsWritten(Config.AgentParameters().makes).None?
  {
  }

  /** The evident intent: the first entry, or `""` when there is none. */
  function FirstOrEmpty(xs: seq<string>): (r: string)
    ensures xs == [] ==> r == []
    ensures xs != [] ==> r == xs[0]
    ensures FirstAsWritten(xs).Some? ==> r == FirstAsWritten(xs).value
  {
    if xs == [] then [] else xs[0]
  }

  /** `s.lower().replace(" ", "-")`: lower case, no spaces. */
  function Slug(s: string): (r: string)
    ensures |r| == |s|
    ensures ' ' !in r
    ensures forall i :: 0 <= i < |r| ==> !('A' <= r[i] <= 'Z')
    ensures forall i :: 0 <= i < |s| ==> r[i] == (if s[i] == ' ' then '-' else LowerChar(s[i]))
  {
    ReplaceChar(Lower(s), ' ', '-')
  }

  /** `&name=value` for a truthy year bound, nothing otherwise. */
  function YearParam(name: string, year: Option<int>): (r: string)
    ensures (year.None? || year.value == 0) <==> r == []
  {
    if year.Some? && year.value != 0 then "&" + name + "=" + IntToString(year.value) else []
  }

  /**
   * One card of a dealer site (Carfax, AutoNation): `None` when its title is
   * empty or its link has no `href` (the listing cannot be built); otherwise
   * the listing with the absolutised URL, the last URL segment (or the
   * title) as external id, the year of the title and the parsed price and
   * mileage.
   */
  function DealerListing(source: string, origin: SiteOrigin, card: DealerCard): (r: Option<RawListing>)
    ensures r.Some? <==> ElementText(card.title) != [] && LinkHref(card.link).Some?
    ensures r.Some? ==>
      var l := r.value;
      && l.source == source
      && l.title == ElementText(card.title) && l.title != []
      && l.url == Absolutise(origin, LinkHref(card.link)).value
      && (l.url == [] || StartsWith(l.url, "http"))
      && l.externalId == LastSegmentOr(l.url, l.title)
      && l.year == TitleYear(l.title)
      && l.price == ParsePrice(ElementText(card.price))
      && l.mileage == ParseMileage(ElementText(card.mileage))
      && l.make.None? && l.model.None?
  {
    var title := ElementText(card.title);
    if title == [] then None
    else
      match Absolutise(origin, LinkHref(card.link))
      case None => None
      case Some(url) =>
        var priceText := ElementText(card.price);
        var mileageText := ElementText(card.mileage);
        Some(RawListing(
          externalId := LastSegmentOr(url, title),
          source := source,
          url := url,
          title := title,
          price := ParsePrice(priceText),
          mileage := ParseMileage(mileageText),
          year := TitleYear(title),
          rawData := map["price_text" := JStr(priceText), "mileage_text" := JStr(mileageText)]))
  }

  /** Every listing of a dealer page has a title; each card with a title and an `href` yields one. */
  lemma DealerPageKeepsTitledCards(source: string, origin: SiteOrigin, cards: seq<DealerCard>)
    ensures var f := (c: DealerCard) => DealerListing(source, origin, c);
      && (forall l :: l in FilterMap(cards, f) ==> l.title != [] && l.source == source)
      && (forall i :: 0 <= i < |cards| && ElementText(cards[i].title) != [] && LinkHref(cards[i].link).Some? ==>
            DealerListing(source, origin, cards[i]).value in FilterMap(cards, f))
  {
    var f := (c: DealerCard) => DealerListing(source, origin, c);
    FilterMapMembers(cards, f);
    forall l: RawListing | l in FilterMap(cards, f) ensures l.title != [] && l.source == source {
      var i :| 0 <= i < |cards| && f(cards[i]) == Some(l);
    }
  }
}
