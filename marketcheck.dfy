/**
 * `src/data/providers/marketcheck.py`: the hub rotation, the query sent to
 * the Marketcheck API, and the mapping of the API's items to listings.
 * The clock is given as the day of the year and the hour.
 */
module Marketcheck {
  import opened Wrappers
  import opened Text
  import opened PyJson
  import opened Config
  import opened Listings
  import opened Scraping

  const Source: string := "marketcheck"

  /** Twelve hub zip codes that, with a 100-mile radius, cover the Lower 48. */
  const Hubs: seq<string> := [
    "10001", "30303", "60601", "75201", "80202", "90001",
    "98101", "33101", "19102", "85001", "63101", "94101"]

  const Rows: nat := 50
  const Radius: nat := 100

  /** `(day_of_year * 6 + hour // 4) % len(STRATEGIC_HUBS)`: always a valid hub index. */
  function HubIndex(dayOfYear: nat, hour: nat): (i: nat)
    ensures i < |Hubs|
  {
    Slot(dayOfYear, hour) % |Hubs|
  }

  /** The rotation slot `day_of_year * 6 + hour // 4` that `HubIndex` reduces. */
  function Slot(dayOfYear: nat, hour: nat): nat {
    dayOfYear * 6 + hour / 4
  }

  /** The next slot is the next hub, wrapping from the last hub to the first. */
  lemma NextSlot(x: nat)
    ensures (x + 1) % |Hubs| == (x % |Hubs| + 1) % |Hubs|
  {
    assert |Hubs| == 12;
    var q, r := x / 12, x % 12;
    assert x == 12 * q + r;
    if r < 11 {
      assert x + 1 == 12 * q + (r + 1);
    } else {
      assert x + 1 == 12 * (q + 1);
    }
  }

  /** Four hours later on the same day, the next hub. */
  lemma NextSlotNextHub(dayOfYear: nat, hour: nat)
    requires hour < 20
    ensures HubIndex(dayOfYear, hour + 4) == (HubIndex(dayOfYear, hour) + 1) % |Hubs|
  {
    assert (hour + 4) / 4 == hour / 4 + 1;
    assert Slot(dayOfYear, hour + 4) == Slot(dayOfYear, hour) + 1;
    NextSlot(Slot(dayOfYear, hour));
  }

  /** Four hours later across midnight, still the next hub. */
  lemma MidnightNextHub(dayOfYear: nat, hour: nat)
    requires 20 <= hour < 24
    ensures HubIndex(dayOfYear + 1, hour - 20) == (HubIndex(dayOfYear, hour) + 1) % |Hubs|
  {
    assert hour / 4 == 5 && (hour - 20) / 4 == 0;
    assert Slot(dayOfYear + 1, hour - 20) == Slot(dayOfYear, hour) + 1;
    NextSlot(Slot(dayOfYear, hour));
  }

  /** The day of the year restarts at 1, so the rotation jumps at the new year: from hub 11 to hub 6. */
  lemma NewYearJump()
    ensures HubIndex(365, 20) == 11 && HubIndex(1, 0) == 6
  {
  }

  /** The query parameters of the API call. */
  datatype Query = Query(
    apiKey: string,
    make: string,
    model: string,
    yearStart: Option<int>,
    rows: nat,
    radius: nat,
    zip: string)

  /**
   * The request `search` makes: none without an API key (it returns no
   * listings); otherwise the first make and model as given, the lower year
   * bound, 50 rows, a 100-mile radius and the hub of the moment.
   */
  function PlanQuery(apiKey: string, p: AgentParameters, dayOfYear: nat, hour: nat): (r: Option<Query>)
    ensures r.None? <==> apiKey == []
    ensures r.Some? ==> r.value.rows == 50 && r.value.radius == 100
    ensures r.Some? ==> r.value.zip in Hubs && r.value.zip == Hubs[HubIndex(dayOfYear, hour)]
    ensures r.Some? ==> r.value.make == FirstOrEmpty(p.makes) && r.value.model == FirstOrEmpty(p.models)
    ensures r.Some? ==> r.value.yearStart == p.yearMin && r.value.apiKey == apiKey
  {
    if apiKey == [] then None
    else Some(Query(apiKey, FirstOrEmpty(p.makes), FirstOrEmpty(p.models), p.yearMin, Rows, Radius, Hubs[HubIndex(dayOfYear, hour)]))
  }

  /** A value converted to a field: raised (`None`), or the field's value. */
  type Conversion<T> = Option<Option<T>>

  /**
   * `float(v) if v else None`: a string may carry surrounding whitespace and
   * one sign before a plain decimal.
   */
  function FloatField(v: Json): (r: Conversion<real>)
    ensures !Truthy(v) ==> r == Some(None)
    ensures v.JInt? && v.i != 0 ==> r == Some(Some(v.i as real))
    ensures v.JFloat? && v.f != 0.0 ==> r == Some(Some(v.f))
  {
    if !Truthy(v) then Some(None)
    else match v
      case JInt(i) => Some(Some(i as real))
      case JFloat(f) => Some(Some(f))
      case JBool(_) => Some(Some(1.0))
      case JStr(s) => (match FloatText(s) case None => None case Some(x) => Some(Some(x)))
      case _ => None
  }

  /**
   * `int(v) if v else None`: a float is cut toward zero; a string may carry
   * surrounding whitespace and one sign before its digits.
   */
  function IntField(v: Json): (r: Conversion<int>)
    ensures !Truthy(v) ==> r == Some(None)
    ensures v.JInt? && v.i != 0 ==> r == Some(Some(v.i))
    ensures v.JFloat? && v.f != 0.0 ==> r == Some(Some(Truncate(v.f)))
  {
    if !Truthy(v) then Some(None)
    else match v
      case JInt(i) => Some(Some(i))
      case JFloat(f) => Some(Some(Truncate(f)))
      case JBool(_) => Some(Some(1))
      case JStr(s) => (match IntText(s) case None => None case Some(n) => Some(Some(n)))
      case _ => None
  }

  /** `int(str(n))` is `n`, whatever whitespace surrounds the text. */
  lemma IntFieldReadsRendered(a: string, n: int, b: string)
    requires forall i :: 0 <= i < |a| ==> a[i] in Whitespace
    requires forall i :: 0 <= i < |b| ==> b[i] in Whitespace
    ensures IntField(JStr(a + IntToString(n) + b)) == Some(Some(n))
  {
    IntTextReadsRendered(a, n, b);
  }

  /** `float(str(n))` is `n` for a whole number, whatever whitespace surrounds the text. */
  lemma FloatFieldReadsRendered(a: string, n: int, b: string)
    requires forall i :: 0 <= i < |a| ==> a[i] in Whitespace
    requires forall i :: 0 <= i < |b| ==> b[i] in Whitespace
    ensures FloatField(JStr(a + IntToString(n) + b)) == Some(Some(n as real))
  {
    var s := a + IntToString(n) + b;
    FloatTextReadsRendered(a, n, b);
    assert FloatText(s) == Some(n as real);
    assert |s| >= |IntToString(n)| > 0;
    assert Truthy(JStr(s));
  }

  /** `float(" 12.5 ")` is 12.5: a padded, signed decimal reads as its value. */
  lemma FloatFieldReadsDecimal(a: string, sign: string, w: string, f: string, b: string)
    requires forall i :: 0 <= i < |a| ==> a[i] in Whitespace
    requires forall i :: 0 <= i < |b| ==> b[i] in Whitespace
    requires Sign(sign) && AllDigits(w) && AllDigits(f) && w + f != []
    ensures sign != "-" ==> FloatField(JStr(a + sign + (w + "." + f) + b)) == Some(Some(Decimal(w, f)))
    ensures sign == "-" ==>
      var r := FloatField(JStr(a + sign + (w + "." + f) + b));
      r.Some? && r.value.Some? && r.value.value == -Decimal(w, f)
  {
    FloatTextReadsDecimal(a, sign, w, f, b);
  }

  /** An optional text field: `None` stays absent, a text is kept, anything else is rejected. */
  function TextField(v: Json): (r: Conversion<string>)
    ensures v.JNull? ==> r == Some(None)
    ensures v.JStr? ==> r == Some(Some(v.s))
  {
    match v
    case JNull => Some(None)
    case JStr(s) => Some(Some(s))
    case _ => None
  }

  /** `f"{item.get('year')} {item.get('make')} {item.get('model')}"`. */
  function DefaultTitle(item: map<string, Json>): string {
    PyStr(Get(item, "year", JNull)) + " " + PyStr(Get(item, "make", JNull)) + " " + PyStr(Get(item, "model", JNull))
  }

  /** The title: `heading` when the item has one, else year, make and model. */
  function TitleField(item: map<string, Json>): (r: Conversion<string>)
    ensures "heading" !in item ==> r == Some(Some(DefaultTitle(item)))
    ensures "heading" in item ==> r == TextField(item["heading"])
  {
    if "heading" in item then TextField(item["heading"]) else Some(Some(DefaultTitle(item)))
  }

  /**
   * One API item as a listing; `None` when a field cannot be converted or
   * is not accepted by `RawListing` (a missing or non-text URL or title).
   */
  function ItemListing(item: map<string, Json>): (r: Option<RawListing>)
    ensures r.Some? ==>
      var l := r.value;
      && l.source == Source
      && l.externalId == PyStr(Get(item, "id", JStr("")))
      && ("id" !in item ==> l.externalId == [])
      && ("heading" !in item ==> l.title == DefaultTitle(item))
      && ("heading" in item ==> item["heading"] == JStr(l.title))
      && (!Truthy(Get(item, "price", JNull)) ==> l.price.None?)
      && (!Truthy(Get(item, "miles", JNull)) ==> l.mileage.None?)
      && (!Truthy(Get(item, "year", JNull)) ==> l.year.None?)
      && l.rawData == item
    ensures r.Some? ==>
      var l := r.value;
      && Some(l.price) == FloatField(Get(item, "price", JNull))
      && Some(l.mileage) == IntField(Get(item, "miles", JNull))
      && Some(l.year) == IntField(Get(item, "year", JNull))
      && Some(l.make) == TextField(Get(item, "make", JNull))
      && Some(l.model) == TextField(Get(item, "model", JNull))
      && l.location == Some(PyStr(Get(item, "city", JNull)) + ", " + PyStr(Get(item, "state", JNull)))
    ensures r.Some? ==> Get(item, "vdp_url", JStr("")) == JStr(r.value.url)
    ensures !Get(item, "vdp_url", JStr("")).JStr? ==> r.None?
  {
    var url := TextField(Get(item, "vdp_url", JStr("")));
    var title := TitleField(item);
    var price := FloatField(Get(item, "price", JNull));
    var miles := IntField(Get(item, "miles", JNull));
    var year := IntField(Get(item, "year", JNull));
    var make := TextField(Get(item, "make", JNull));
    var model := TextField(Get(item, "model", JNull));
    if url.None? || url.value.None? || title.None? || title.value.None?
      || price.None? || miles.None? || year.None? || make.None? || model.None?
    then None
    else
      Some(RawListing(
        externalId := PyStr(Get(item, "id", JStr(""))),
        source := Source,
        url := url.value.value,
        title := title.value.value,
        price := price.value,
        mileage := miles.value,
        year := year.value,
        make := make.value,
        model := model.value,
        location := Some(PyStr(Get(item, "city", JNull)) + ", " + PyStr(Get(item, "state", JNull))),
        rawData := item))
  }

  /**
   * An item is kept exactly when `RawListing` accepts it: a text URL, a text
   * heading if there is one, convertible price, miles and year, and a make
   * and model that are text or absent.
   */
  lemma ItemKeptIff(item: map<string, Json>)
    ensures ItemListing(item).Some? <==>
      && Get(item, "vdp_url", JStr("")).JStr?
      && ("heading" in item ==> item["heading"].JStr?)
      && FloatField(Get(item, "price", JNull)).Some?
      && IntField(Get(item, "miles", JNull)).Some?
      && IntField(Get(item, "year", JNull)).Some?
      && (Get(item, "make", JNull).JNull? || Get(item, "make", JNull).JStr?)
      && (Get(item, "model", JNull).JNull? || Get(item, "model", JNull).JStr?)
  {
  }

  /** What the items loop reads: an item object, or something it skips. */
  function ItemOf(j: Json): Option<RawListing> {
    match j
    case JObj(m) => ItemListing(m)
    case _ => None
  }

  /** `data.get("listings", [])` as the loop sees it: anything but a list yields no listing. */
  function Items(data: map<string, Json>): seq<Json> {
    match Get(data, "listings", JList([]))
    case JList(xs) => xs
    case _ => []
  }

  /**
   * `search`: no request and no listing without an API key; no listing when
   * the request fails; otherwise the items of the response that convert, in
   * order.  `fetch` is the HTTP call: the decoded JSON body, or `None` when
   * it raises.
   */
  method Search(apiKey: string, p: AgentParameters, dayOfYear: nat, hour: nat,
                fetch: Query -> Option<map<string, Json>>) returns (listings: seq<RawListing>)
    ensures apiKey == [] ==> listings == []
    ensures apiKey != [] ==>
      var q := PlanQuery(apiKey, p, dayOfYear, hour).value;
      listings == match fetch(q) case None => [] case Some(data) => FilterMap(Items(data), ItemOf)
  {
    var q := PlanQuery(apiKey, p, dayOfYear, hour);
    if q.None? {
      return [];
    }
    match fetch(q.value) {
      case None => listings := [];
      case Some(data) => listings := CollectListings(Items(data), ItemOf);
    }
  }

  /** Every listing of a response is the conversion of one of its item objects, tagged `marketcheck`. */
  lemma ResponseListings(data: map<string, Json>)
    ensures forall l :: l in FilterMap(Items(data), ItemOf) ==>
      l.source == Source &&
      exists i :: 0 <= i < |Items(data)| && Items(data)[i].JObj? && ItemListing(Items(data)[i].fields) == Some(l)
  {
    FilterMapMembers(Items(data), ItemOf);
    forall l | l in FilterMap(Items(data), ItemOf)
      ensures exists i :: 0 <= i < |Items(data)| && Items(data)[i].JObj? && ItemListing(Items(data)[i].fields) == Some(l)
    {
      var i :| 0 <= i < |Items(data)| && ItemOf(Items(data)[i]) == Some(l);
    }
  }

  /** A complete item with a heading and no numbers gives the listing its fields say. */
  lemma PlainItem(id: string, url: string, heading: string)
    ensures var item := map["id" := JStr(id), "vdp_url" := JStr(url), "heading" := JStr(heading)];
      ItemListing(item) == Some(RawListing(
        externalId := id, source := Source, url := url, title := heading,
        location := Some("None, None"), rawData := item))
  {
    var item := map["id" := JStr(id), "vdp_url" := JStr(url), "heading" := JStr(heading)];
    assert item.Keys == {"id", "vdp_url", "heading"};
    assert "price" !in item && "miles" !in item && "year" !in item;
    assert "make" !in item && "model" !in item && "city" !in item && "state" !in item;
    assert PyStr(JNull) + ", " + PyStr(JNull) == "None, None";
  }
}
