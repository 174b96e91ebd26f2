/**
 * The pure parts of the Streamlit dashboard, `src/ui/app.py`: image URL
 * extraction from a listing's raw JSON, pagination, and the row filters.
 */
module Dashboard {
  import opened Wrappers
  import opened Text
  import opened PyJson

  /** `s.strip().strip('"').strip("'")`. */
  function Cleaned(s: string): string {
    Strip(Strip(Strip(s, Whitespace), {'"'}), {'\''})
  }

  /** `s.split(sep, 1)[0]`: the text before the first `sep`, or all of it. */
  function CutAt(s: string, sep: string): (r: string)
    requires |sep| > 0
    ensures |r| <= |s| && r == s[..|r|]
    ensures !Contains(r, sep)
    ensures !Contains(s, sep) ==> r == s
  {
    if Contains(s, sep) then
      BeforeFirst(s, sep);
      s[..IndexOf(s, sep).value]
    else s
  }

  /** The separators a size hint may follow. */
  const Separators: seq<string> := ["%20", " "]

  /** Cutting at each of `seps` in turn. */
  function CutAll(s: string, seps: seq<string>): string
    requires [] !in seps
    decreases |seps|
  {
    if seps == [] then s else CutAt(CutAll(s, seps[..|seps| - 1]), seps[|seps| - 1])
  }

  /** Cutting at each size-hint separator in turn. */
  function CutSizeHint(s: string): string {
    assert [] !in Separators;
    CutAll(s, Separators)
  }

  /** Dropping whatever comes before the first `http`. */
  function StartAtHttp(s: string): string {
    if Contains(s, "http") && !StartsWith(s, "http") then s[IndexOf(s, "http").value..] else s
  }

  /** What `normalize` returns. */
  function NormalizedText(u: Json): Option<string> {
    match u
    case JStr(raw) => FromCleaned(Cleaned(raw))
    case _ => None
  }

  /** What `normalize` returns for a cleaned string. */
  function FromCleaned(c: string): Option<string> {
    var s := StartAtHttp(c);
    if StartsWith(s, "http") then Some(CutSizeHint(s)) else None
  }

  /** `normalize(u)`, step by step as the source runs it. */
  method Normalize(u: Json) returns (r: Option<string>)
    ensures r == NormalizedText(u)
  {
    if !u.JStr? {
      return None;
    }
    var s := StartAtHttp(Cleaned(u.s));
    if !StartsWith(s, "http") {
      return None;
    }
    s := CutSeparators(s);
    return Some(s);
  }

  /** The `for sep in ["%20", " "]` loop of `normalize`. */
  method CutSeparators(start: string) returns (s: string)
    ensures s == CutSizeHint(start)
  {
    s := start;
    for i := 0 to |Separators|
      invariant s == CutAll(start, Separators[..i])
    {
      assert Separators[..i + 1][..i] == Separators[..i];
      var sep := Separators[i];
      if Contains(s, sep) {
        s := s[..IndexOf(s, sep).value];
      }
    }
    assert Separators[..|Separators|] == Separators;
  }

  lemma CutBothSeparators(t: string)
    ensures CutSizeHint(t) == CutAt(CutAt(t, "%20"), " ")
  {
    var one := Separators[..1];
    assert one == ["%20"] && one[..0] == [];
    assert CutAll(t, one) == CutAt(t, "%20");
    assert Separators[..|Separators| - 1] == one;
  }

  /** After the cut, the text starts with `http` exactly when it contained it. */
  lemma StartAtHttpIff(s: string)
    ensures StartsWith(StartAtHttp(s), "http") <==> Contains(s, "http")
  {
    if StartsWith(s, "http") {
      assert OccursAt(s, "http", 0);
    } else if Contains(s, "http") {
      var t := StartAtHttp(s);
      assert OccursAt(s, "http", IndexOf(s, "http").value);
      assert t[..4] == "http";
    } else {
      assert !OccursAt(s, "http", 0);
    }
  }

  /** A cut at a separator that cannot begin `http` keeps the leading `http`. */
  lemma HttpStaysFirst(s: string, sep: string)
    requires StartsWith(s, "http") && |sep| >= 1 && sep[0] !in "http"
    ensures StartsWith(CutAt(s, sep), "http")
  {
    if Contains(s, sep) {
      assert CutAt(s, sep)[..4] == s[..4];
    }
  }

  /** Cutting a URL at both separators keeps `http` in front and leaves neither separator. */
  lemma CutUrl(t: string)
    requires StartsWith(t, "http")
    ensures var r := CutSizeHint(t);
      StartsWith(r, "http") && !Contains(r, "%20") && !Contains(r, " ")
  {
    CutBothSeparators(t);
    var a := CutAt(t, "%20");
    var r := CutAt(a, " ");
    HttpStaysFirst(t, "%20");
    HttpStaysFirst(a, " ");
    if Contains(r, "%20") {
      ContainsPrefix(a, |r|, "%20");
    }
  }

  /**
   * A normalised URL starts with `http` and holds neither `%20` nor a
   * space; there is one exactly when the cleaned text contains `http`.
   */
  lemma NormalizedIsUrl(u: Json)
    ensures NormalizedText(u).Some? <==> u.JStr? && Contains(Cleaned(u.s), "http")
    ensures NormalizedText(u).Some? ==>
      var r := NormalizedText(u).value;
      StartsWith(r, "http") && !Contains(r, "%20") && !Contains(r, " ")
  {
    if u.JStr? {
      var c := Cleaned(u.s);
      assert NormalizedText(u) == FromCleaned(c);
      CleanedTextIsUrl(c);
    } else {
      assert NormalizedText(u) == None;
    }
  }

  /** `NormalizedIsUrl` for the cleaned text of a string. */
  lemma CleanedTextIsUrl(c: string)
    ensures FromCleaned(c).Some? <==> Contains(c, "http")
    ensures FromCleaned(c).Some? ==>
      var r := FromCleaned(c).value;
      StartsWith(r, "http") && !Contains(r, "%20") && !Contains(r, " ")
  {
    StartAtHttpIff(c);
    if StartsWith(StartAtHttp(c), "http") {
      CutUrl(StartAtHttp(c));
    }
  }

  /** `u.rsplit("/", 1)`, or `("", u)` when `u` has no `/`. */
  function Folder(u: string): (r: string)
    ensures |r| <= |u|
    ensures '/' !in u ==> r == []
    ensures '/' in u ==> u == r + "/" + AfterLast(u, '/')
  {
    var name := AfterLast(u, '/');
    if |name| < |u| then u[..|u| - |name| - 1] else []
  }

  /** The digits of the file name as a number; 0 without digits. */
  function Width(u: string): nat {
    var digits := DigitsOf(AfterLast(u, '/'));
    if digits == [] then 0 else DigitsValue(digits)
  }

  /** The state of the `best_by_folder` loop: keys in first-seen order, and per key (width, item). */
  datatype Picks<K, T> = Picks(order: seq<K>, best: map<K, (nat, T)>)

  /** How an item is keyed and ranked; the dashboard keys URLs by `Folder` and ranks them by `Width`. */
  datatype Measure<!T, K> = Measure(folder: T -> K, width: T -> nat)

  const ByFolder: Measure<string, string> := Measure(Folder, Width)

  /** One turn of the loop: a new key is appended; a strictly wider item replaces the pick. */
  function PickStep<T, K(==)>(p: Picks<K, T>, u: T, m: Measure<T, K>): Picks<K, T> {
    var f := m.folder(u);
    if f !in p.best then Picks(p.order + [f], p.best[f := (m.width(u), u)])
    else if m.width(u) > p.best[f].0 then Picks(p.order, p.best[f := (m.width(u), u)])
    else p
  }

  /** The loop over `urls`; every listed key has a pick. */
  function PickAll<T, K(==)>(urls: seq<T>, m: Measure<T, K>): (p: Picks<K, T>)
    ensures forall k :: 0 <= k < |p.order| ==> p.order[k] in p.best
    decreases |urls|
  {
    if urls == [] then Picks([], map[])
    else PickStep(PickAll(urls[..|urls| - 1], m), urls[|urls| - 1], m)
  }

  /** `[val[1] for _, val in best_by_folder.items()]`. */
  function Chosen<K, T>(p: Picks<K, T>): (r: seq<T>)
    requires forall k :: 0 <= k < |p.order| ==> p.order[k] in p.best
    ensures |r| == |p.order|
    ensures forall k :: 0 <= k < |r| ==> r[k] == p.best[p.order[k]].1
  {
    seq(|p.order|, k requires 0 <= k < |p.order| => p.best[p.order[k]].1)
  }

  /** The per-folder dedup loop of `extract_image_urls`. */
  method LargestPerFolder(urls: seq<string>) returns (result: seq<string>)
    ensures result == Chosen(PickAll(urls, ByFolder))
  {
    var order: seq<string> := [];
    var best: map<string, (nat, string)> := map[];
    for i := 0 to |urls|
      invariant Picks(order, best) == PickAll(urls[..i], ByFolder)
    {
      assert urls[..i + 1][..i] == urls[..i];
      order, best := KeepWidest(order, best, urls[i]);
    }
    assert urls[..|urls|] == urls;
    result := Chosen(Picks(order, best));
  }

  /** One turn of the dedup loop: record `u` when its folder is new or it is strictly wider. */
  method KeepWidest(order: seq<string>, best: map<string, (nat, string)>, u: string)
    returns (order': seq<string>, best': map<string, (nat, string)>)
    ensures Picks(order', best') == PickStep(Picks(order, best), u, ByFolder)
  {
    var folder, width := Folder(u), Width(u);
    order', best' := order, best;
    if folder !in best || width > best[folder].0 {
      if folder !in best {
        order' := order + [folder];
      }
      best' := best[folder := (width, u)];
    }
  }

  /** Each folder is listed once. */
  ghost predicate ListedOnce<K, T>(p: Picks<K, T>) {
    forall i, j :: 0 <= i < j < |p.order| ==> p.order[i] != p.order[j]
  }

  /** The pick for a folder is one of `urls`, lies in that folder, and carries its own width. */
  ghost predicate PickedFrom<K, T>(p: Picks<K, T>, urls: seq<T>, m: Measure<T, K>) {
    forall f :: f in p.best ==>
      p.best[f].1 in urls && m.folder(p.best[f].1) == f && p.best[f].0 == m.width(p.best[f].1)
  }

  /** Every URL's folder has a pick, at least as wide as the URL. */
  ghost predicate Widest<K, T>(p: Picks<K, T>, urls: seq<T>, m: Measure<T, K>) {
    forall i :: 0 <= i < |urls| ==> m.folder(urls[i]) in p.best && m.width(urls[i]) <= p.best[m.folder(urls[i])].0
  }

  /** Every earlier URL of a pick's folder is strictly narrower than the pick. */
  ghost predicate FirstOfWidest<K, T>(p: Picks<K, T>, urls: seq<T>, m: Measure<T, K>, f: K, j: int)
    requires f in p.best
  {
    0 <= j < |urls| && urls[j] == p.best[f].1 &&
    forall i :: 0 <= i < j && m.folder(urls[i]) == f ==> m.width(urls[i]) < p.best[f].0
  }

  /** Each pick is the first of the widest items of its key. */
  ghost predicate Earliest<K, T>(p: Picks<K, T>, urls: seq<T>, m: Measure<T, K>) {
    forall f :: f in p.best ==> exists j :: FirstOfWidest(p, urls, m, f, j)
  }

  /** Folders are listed in the order their first URL appears. */
  ghost predicate FirstSeenOrder<K, T>(p: Picks<K, T>, urls: seq<T>, m: Measure<T, K>) {
    forall a, b, i :: 0 <= a < b < |p.order| && 0 <= i < |urls| && m.folder(urls[i]) == p.order[b] ==>
      exists h :: 0 <= h < i && m.folder(urls[h]) == p.order[a]
  }

  lemma {:induction false} PicksListedOnce<T, K>(urls: seq<T>, m: Measure<T, K>)
    ensures ListedOnce(PickAll(urls, m))
    decreases |urls|
  {
    if urls != [] {
      var init := urls[..|urls| - 1];
      PicksListedOnce(init, m);
      var prev := PickAll(init, m);
      var f := m.folder(urls[|urls| - 1]);
      var p := PickAll(urls, m);
      if f !in prev.best {
        assert p.order == prev.order + [f];
        forall i, j | 0 <= i < j < |p.order|
          ensures p.order[i] != p.order[j]
        {
          assert p.order[i] == prev.order[i];
          if j == |prev.order| {
            assert prev.order[i] in prev.best;
          } else {
            assert p.order[j] == prev.order[j];
          }
        }
      }
    }
  }

  lemma {:induction false} PicksFromUrls<T, K>(urls: seq<T>, m: Measure<T, K>)
    ensures PickedFrom(PickAll(urls, m), urls, m)
    decreases |urls|
  {
    if urls != [] {
      var init := urls[..|urls| - 1];
      var u := urls[|urls| - 1];
      PicksFromUrls(init, m);
      var prev := PickAll(init, m);
      var p := PickAll(urls, m);
      assert urls == init + [u];
      forall f | f in p.best
        ensures p.best[f].1 in urls && m.folder(p.best[f].1) == f && p.best[f].0 == m.width(p.best[f].1)
      {
        if f !in prev.best || p.best[f] != prev.best[f] {
          assert p.best[f] == (m.width(u), u);
        } else {
          assert prev.best[f].1 in init;
        }
      }
    }
  }

  lemma {:induction false} PicksWidest<T, K>(urls: seq<T>, m: Measure<T, K>)
    ensures Widest(PickAll(urls, m), urls, m)
    decreases |urls|
  {
    if urls != [] {
      var init := urls[..|urls| - 1];
      PicksWidest(init, m);
      var prev := PickAll(init, m);
      var p := PickAll(urls, m);
      forall i | 0 <= i < |urls|
        ensures m.folder(urls[i]) in p.best && m.width(urls[i]) <= p.best[m.folder(urls[i])].0
      {
        if i < |init| {
          assert urls[i] == init[i];
          var g := m.folder(init[i]);
          assert g in prev.best && m.width(init[i]) <= prev.best[g].0;
          assert prev.best[g].0 <= p.best[g].0;
        }
      }
    }
  }

  /** On equal widths the URL seen first stays. */
  lemma {:induction false} PicksEarliest<T, K>(urls: seq<T>, m: Measure<T, K>)
    ensures Earliest(PickAll(urls, m), urls, m)
    decreases |urls|
  {
    if urls != [] {
      var init := urls[..|urls| - 1];
      PicksEarliest(init, m);
      PicksWidest(init, m);
      forall f | f in PickAll(urls, m).best
        ensures exists j :: FirstOfWidest(PickAll(urls, m), urls, m, f, j)
      {
        EarliestStep(urls, m, f);
      }
    }
  }

  /** The earliest-on-ties property for one key, carried over the last turn of the loop. */
  lemma EarliestStep<T, K>(urls: seq<T>, m: Measure<T, K>, f: K)
    requires urls != []
    requires Earliest(PickAll(urls[..|urls| - 1], m), urls[..|urls| - 1], m)
    requires Widest(PickAll(urls[..|urls| - 1], m), urls[..|urls| - 1], m)
    requires f in PickAll(urls, m).best
    ensures exists j :: FirstOfWidest(PickAll(urls, m), urls, m, f, j)
  {
    var prev := PickAll(urls[..|urls| - 1], m);
    var p := PickAll(urls, m);
    if f in prev.best && p.best[f] == prev.best[f] {
      var j :| FirstOfWidest(prev, urls[..|urls| - 1], m, f, j);
      Kept(urls, m, f, j);
    } else {
      Replaced(urls, m, f);
    }
  }

  /** A pick that survives the last turn keeps its witness. */
  lemma Kept<T, K>(urls: seq<T>, m: Measure<T, K>, f: K, j: int)
    requires urls != []
    requires f in PickAll(urls[..|urls| - 1], m).best
    requires FirstOfWidest(PickAll(urls[..|urls| - 1], m), urls[..|urls| - 1], m, f, j)
    requires f in PickAll(urls, m).best
    requires PickAll(urls, m).best[f] == PickAll(urls[..|urls| - 1], m).best[f]
    ensures FirstOfWidest(PickAll(urls, m), urls, m, f, j)
  {
    var init := urls[..|urls| - 1];
    assert forall i :: 0 <= i <= j ==> urls[i] == init[i];
  }

  /** An item that takes its key's place on the last turn is wider than every earlier item of that key. */
  lemma Replaced<T, K>(urls: seq<T>, m: Measure<T, K>, f: K)
    requires urls != []
    requires Widest(PickAll(urls[..|urls| - 1], m), urls[..|urls| - 1], m)
    requires f in PickAll(urls, m).best
    requires f !in PickAll(urls[..|urls| - 1], m).best || PickAll(urls, m).best[f] != PickAll(urls[..|urls| - 1], m).best[f]
    ensures FirstOfWidest(PickAll(urls, m), urls, m, f, |urls| - 1)
  {
    var init := urls[..|urls| - 1];
    assert forall i :: 0 <= i < |init| ==> urls[i] == init[i];
  }

  lemma {:induction false} PicksInFirstSeenOrder<T, K>(urls: seq<T>, m: Measure<T, K>)
    ensures FirstSeenOrder(PickAll(urls, m), urls, m)
    decreases |urls|
  {
    if urls != [] {
      var init := urls[..|urls| - 1];
      var u := urls[|urls| - 1];
      PicksInFirstSeenOrder(init, m);
      PicksWidest(init, m);
      PicksFromUrls(init, m);
      var prev := PickAll(init, m);
      var p := PickAll(urls, m);
      assert p == PickStep(prev, u, m);
      assert forall k :: 0 <= k < |prev.order| ==> p.order[k] == prev.order[k];
      forall a, b, i | 0 <= a < b < |p.order| && 0 <= i < |urls| && m.folder(urls[i]) == p.order[b]
        ensures exists h :: 0 <= h < i && m.folder(urls[h]) == p.order[a]
      {
        SeenBefore(init, u, m, a, b, i);
      }
    }
  }

  /** One instance of the first-seen order, for `init + [u]`. */
  lemma SeenBefore<T, K>(init: seq<T>, u: T, m: Measure<T, K>, a: int, b: int, i: int)
    requires FirstSeenOrder(PickAll(init, m), init, m)
    requires Widest(PickAll(init, m), init, m)
    requires PickedFrom(PickAll(init, m), init, m)
    requires var p := PickStep(PickAll(init, m), u, m);
      0 <= a < b < |p.order| && 0 <= i <= |init| && m.folder((init + [u])[i]) == p.order[b]
    ensures exists h :: 0 <= h < i && m.folder((init + [u])[h]) == PickStep(PickAll(init, m), u, m).order[a]
  {
    var urls := init + [u];
    var prev := PickAll(init, m);
    var p := PickStep(prev, u, m);
    var g := p.order[a];
    assert g == prev.order[a] && g in prev.best;
    var h :| 0 <= h < |init| && init[h] == prev.best[g].1;
    assert urls[h] == init[h];
    if i < |init| {
      assert urls[i] == init[i];
      if b < |prev.order| {
        assert p.order[b] == prev.order[b];
        var h' :| 0 <= h' < i && m.folder(init[h']) == g;
        assert urls[h'] == init[h'];
      }
    }
  }

  /** The items of `d.get(key)` when it is a list; nothing otherwise. */
  function ListAt(d: map<string, Json>, key: string): seq<Json> {
    match Get(d, key, JNull)
    case JList(xs) => xs
    case _ => []
  }

  /** The non-empty results of `norm` over `vs`, in order (`if cleaned: urls.append(cleaned)`). */
  function NormalizedAll<A>(vs: seq<A>, norm: A -> Option<string>): seq<string>
    decreases |vs|
  {
    if vs == [] then []
    else
      var last := norm(vs[|vs| - 1]);
      NormalizedAll(vs[..|vs| - 1], norm) + (if last.Some? && last.value != [] then [last.value] else [])
  }

  /** The candidates gathered from `d[key]` for each of `keys`, key by key. */
  function FromKeys(d: map<string, Json>, keys: seq<string>, norm: Json -> Option<string>): seq<string>
    decreases |keys|
  {
    if keys == [] then [] else FromKeys(d, keys[..|keys| - 1], norm) + NormalizedAll(ListAt(d, keys[|keys| - 1]), norm)
  }

  /** The top-level keys read, in order, then the keys read under `media`. */
  const TopKeys: seq<string> := ["images", "image_urls", "photo_links", "photos"]
  const MediaKeys: seq<string> := ["photo_links", "images"]

  /** The candidates of a dict: its own keys, then those under `media` when that is a dict. */
  function Gathered(d: map<string, Json>, top: seq<string>, nested: seq<string>, norm: Json -> Option<string>): seq<string> {
    FromKeys(d, top, norm) +
      (match Get(d, "media", JNull) case JObj(media) => FromKeys(media, nested, norm) case _ => [])
  }

  /** All candidate URLs of a listing's raw JSON, before the per-folder dedup. */
  function Candidates(raw: Json): seq<string> {
    match raw
    case JObj(d) => Gathered(d, TopKeys, MediaKeys, NormalizedText)
    case _ => []
  }

  /** What `extract_image_urls` returns. */
  function ImageUrls(raw: Json): seq<string> {
    Chosen(PickAll(Candidates(raw), ByFolder))
  }

  /** The candidate-gathering loops over `keys` of `d`, appending to `urls`. */
  method CollectFrom(d: map<string, Json>, keys: seq<string>, start: seq<string>) returns (urls: seq<string>)
    ensures urls == start + FromKeys(d, keys, NormalizedText)
  {
    urls := start;
    for k := 0 to |keys|
      invariant urls == start + FromKeys(d, keys[..k], NormalizedText)
    {
      ghost var prev := urls;
      urls := CollectList(d, keys[k], urls);
      FromKeysSnoc(d, keys, k, NormalizedText);
      Assoc(start, FromKeys(d, keys[..k], NormalizedText), urls[|prev|..]);
    }
    assert keys[..|keys|] == keys;
  }

  /** The loop over `d.get(key)` when it is a list, appending each truthy normalised item. */
  method CollectList(d: map<string, Json>, key: string, start: seq<string>) returns (urls: seq<string>)
    ensures urls == start + NormalizedAll(ListAt(d, key), NormalizedText)
  {
    urls := start;
    var v := Get(d, key, JNull);
    if v.JList? {
      var items := v.items;
      for j := 0 to |items|
        invariant urls == start + NormalizedAll(items[..j], NormalizedText)
      {
        ghost var prev := urls;
        urls := AppendNormalized(urls, items[j]);
        NormalizedAllSnoc(items, j, NormalizedText);
        Assoc(start, NormalizedAll(items[..j], NormalizedText), urls[|prev|..]);
      }
      assert items[..|items|] == items;
    }
  }

  /** One turn of that loop: `cleaned = normalize(u); if cleaned: urls.append(cleaned)`. */
  method AppendNormalized(urls: seq<string>, u: Json) returns (r: seq<string>)
    ensures var c := NormalizedText(u); r == urls + (if c.Some? && c.value != [] then [c.value] else [])
  {
    var cleaned := Normalize(u);
    r := urls;
    if cleaned.Some? && cleaned.value != [] {
      r := r + [cleaned.value];
    }
  }

  lemma Assoc<T>(a: seq<T>, b: seq<T>, c: seq<T>)
    ensures (a + b) + c == a + (b + c)
  {
  }

  lemma NormalizedAllSnoc<A>(vs: seq<A>, j: nat, norm: A -> Option<string>)
    requires j < |vs|
    ensures NormalizedAll(vs[..j + 1], norm) == NormalizedAll(vs[..j], norm) +
      (if norm(vs[j]).Some? && norm(vs[j]).value != [] then [norm(vs[j]).value] else [])
  {
    assert vs[..j + 1][..j] == vs[..j];
  }

  lemma FromKeysSnoc(d: map<string, Json>, keys: seq<string>, k: nat, norm: Json -> Option<string>)
    requires k < |keys|
    ensures FromKeys(d, keys[..k + 1], norm) == FromKeys(d, keys[..k], norm) + NormalizedAll(ListAt(d, keys[k]), norm)
  {
    assert keys[..k + 1][..k] == keys[..k];
  }

  /** `extract_image_urls(raw_json)`. */
  method ExtractImageUrls(raw: Json) returns (result: seq<string>)
    ensures result == ImageUrls(raw)
  {
    if !raw.JObj? {
      return [];
    }
    var urls := GatherCandidates(raw.fields, TopKeys, MediaKeys);
    result := LargestPerFolder(urls);
  }

  /** The candidate loops of `extract_image_urls`: the `top` keys of `d`, then the `nested` keys of `d["media"]`. */
  method GatherCandidates(d: map<string, Json>, top: seq<string>, nested: seq<string>) returns (urls: seq<string>)
    ensures urls == Gathered(d, top, nested, NormalizedText)
  {
    urls := CollectFrom(d, top, []);
    assert urls == FromKeys(d, top, NormalizedText);
    var media := Get(d, "media", JNull);
    if media.JObj? {
      urls := CollectFrom(media.fields, nested, urls);
    }
  }

  /** Every gathered candidate is a non-empty result of `norm` on one of `vs`, and each such result is gathered. */
  lemma {:induction false} NormalizedAllMembers<A>(vs: seq<A>, norm: A -> Option<string>)
    ensures forall u :: u in NormalizedAll(vs, norm) <==>
      u != [] && exists i :: 0 <= i < |vs| && norm(vs[i]) == Some(u)
    decreases |vs|
  {
    if vs != [] {
      var init := vs[..|vs| - 1];
      NormalizedAllMembers(init, norm);
      forall u
        ensures u in NormalizedAll(vs, norm) <==> u != [] && exists i :: 0 <= i < |vs| && norm(vs[i]) == Some(u)
      {
        if u != [] && exists i :: 0 <= i < |vs| && norm(vs[i]) == Some(u) {
          var i :| 0 <= i < |vs| && norm(vs[i]) == Some(u);
          if i < |init| {
            assert init[i] == vs[i];
          }
        }
        if u in NormalizedAll(init, norm) {
          var i :| 0 <= i < |init| && norm(init[i]) == Some(u);
          assert vs[i] == init[i];
        }
      }
    }
  }

  /** Every candidate from `keys` is the normalised form of an item listed under one of them. */
  lemma {:induction false} FromKeysSource(d: map<string, Json>, keys: seq<string>, norm: Json -> Option<string>, u: string)
    returns (v: Json)
    requires u in FromKeys(d, keys, norm)
    ensures norm(v) == Some(u)
    decreases |keys|
  {
    var init := keys[..|keys| - 1];
    var items := ListAt(d, keys[|keys| - 1]);
    if u in FromKeys(d, init, norm) {
      v := FromKeysSource(d, init, norm, u);
    } else {
      assert u in NormalizedAll(items, norm);
      NormalizedAllMembers(items, norm);
      var i :| 0 <= i < |items| && norm(items[i]) == Some(u);
      v := items[i];
    }
  }

  /** Every candidate is a normalised URL: it starts with `http` and holds neither `%20` nor a space. */
  lemma CandidatesAreUrls(raw: Json)
    ensures forall u :: u in Candidates(raw) ==> StartsWith(u, "http") && !Contains(u, "%20") && !Contains(u, " ")
  {
    if raw.JObj? {
      forall u | u in Candidates(raw)
        ensures StartsWith(u, "http") && !Contains(u, "%20") && !Contains(u, " ")
      {
        var v := CandidateSource(raw.fields, TopKeys, MediaKeys, NormalizedText, u);
        NormalizedIsUrl(v);
      }
    }
  }

  /** Each gathered candidate is the normalised form of some JSON value. */
  lemma CandidateSource(d: map<string, Json>, top: seq<string>, nested: seq<string>, norm: Json -> Option<string>, u: string)
    returns (v: Json)
    requires u in Gathered(d, top, nested, norm)
    ensures norm(v) == Some(u)
  {
    if u in FromKeys(d, top, norm) {
      v := FromKeysSource(d, top, norm, u);
    } else {
      var media := Get(d, "media", JNull);
      v := FromKeysSource(media.fields, nested, norm, u);
    }
  }

  /** `r` holds input items with distinct keys, each the widest of its key, covering every key. */
  ghost predicate PerKey<T, K>(r: seq<T>, urls: seq<T>, m: Measure<T, K>) {
    && (forall k :: 0 <= k < |r| ==> r[k] in urls)
    && (forall i, j :: 0 <= i < j < |r| ==> m.folder(r[i]) != m.folder(r[j]))
    && (forall k, i :: 0 <= k < |r| && 0 <= i < |urls| && m.folder(urls[i]) == m.folder(r[k]) ==> m.width(urls[i]) <= m.width(r[k]))
    && (forall i :: 0 <= i < |urls| ==> exists k :: 0 <= k < |r| && m.folder(r[k]) == m.folder(urls[i]))
  }

  /** `r` holds URLs of `urls`, one per folder, each the widest of its folder, covering every folder. */
  ghost predicate OnePerFolder(r: seq<string>, urls: seq<string>) {
    && (forall k :: 0 <= k < |r| ==> r[k] in urls)
    && (forall i, j :: 0 <= i < j < |r| ==> Folder(r[i]) != Folder(r[j]))
    && (forall k, u :: 0 <= k < |r| && u in urls && Folder(u) == Folder(r[k]) ==> Width(u) <= Width(r[k]))
    && (forall u :: u in urls ==> exists k :: 0 <= k < |r| && Folder(r[k]) == Folder(u))
  }

  /** The picks, read in order, carry distinct keys, each the widest of its key, and cover every key. */
  lemma ChosenPerKey<T, K>(urls: seq<T>, m: Measure<T, K>)
    ensures PerKey(Chosen(PickAll(urls, m)), urls, m)
  {
    var p := PickAll(urls, m);
    var r := Chosen(p);
    PicksListedOnce(urls, m);
    PicksFromUrls(urls, m);
    PicksWidest(urls, m);
    assert forall k :: 0 <= k < |r| ==> m.folder(r[k]) == p.order[k];
    forall i | 0 <= i < |urls|
      ensures exists k :: 0 <= k < |r| && m.folder(r[k]) == m.folder(urls[i])
    {
      PickedIsListed(urls, m, m.folder(urls[i]));
    }
  }

  /** The per-folder dedup of `urls`: one URL per folder, each the widest of its folder, every folder represented. */
  lemma LargestPerFolderSpec(urls: seq<string>)
    ensures OnePerFolder(Chosen(PickAll(urls, ByFolder)), urls)
  {
    ChosenPerKey(urls, ByFolder);
    FolderFacts(urls, Chosen(PickAll(urls, ByFolder)));
  }

  /** Restates the per-key facts of `ByFolder` in terms of `Folder` and `Width`. */
  lemma FolderFacts(urls: seq<string>, r: seq<string>)
    requires PerKey(r, urls, ByFolder)
    ensures OnePerFolder(r, urls)
  {
    DistinctFolders(r);
    WidestOfFolder(urls, r);
    forall u | u in urls
      ensures exists k :: 0 <= k < |r| && Folder(r[k]) == Folder(u)
    {
      var i :| 0 <= i < |urls| && urls[i] == u;
      assert exists k :: 0 <= k < |r| && ByFolder.folder(r[k]) == ByFolder.folder(urls[i]);
    }
  }

  lemma DistinctFolders(r: seq<string>)
    requires forall i, j :: 0 <= i < j < |r| ==> ByFolder.folder(r[i]) != ByFolder.folder(r[j])
    ensures forall i, j :: 0 <= i < j < |r| ==> Folder(r[i]) != Folder(r[j])
  {
    forall i, j | 0 <= i < j < |r| ensures Folder(r[i]) != Folder(r[j]) {
      assert ByFolder.folder(r[i]) != ByFolder.folder(r[j]);
    }
  }

  lemma WidestOfFolder(urls: seq<string>, r: seq<string>)
    requires forall k, i :: 0 <= k < |r| && 0 <= i < |urls| && ByFolder.folder(urls[i]) == ByFolder.folder(r[k]) ==>
      ByFolder.width(urls[i]) <= ByFolder.width(r[k])
    ensures forall k, u :: 0 <= k < |r| && u in urls && Folder(u) == Folder(r[k]) ==> Width(u) <= Width(r[k])
  {
    forall k, u | 0 <= k < |r| && u in urls && Folder(u) == Folder(r[k])
      ensures Width(u) <= Width(r[k])
    {
      var i :| 0 <= i < |urls| && urls[i] == u;
      assert ByFolder.folder(urls[i]) == ByFolder.folder(r[k]);
      assert ByFolder.width(urls[i]) <= ByFolder.width(r[k]);
      assert ByFolder.width(r[k]) == Width(r[k]) && ByFolder.width(u) == Width(u);
    }
  }

  /**
   * `extract_image_urls`: nothing for a non-dict; otherwise normalised URLs
   * drawn from the candidates, one per folder, each the widest of its
   * folder, with every candidate's folder represented.
   */
  lemma ImageUrlsPerFolder(raw: Json)
    ensures !raw.JObj? ==> ImageUrls(raw) == []
    ensures OnePerFolder(ImageUrls(raw), Candidates(raw))
    ensures forall k :: 0 <= k < |ImageUrls(raw)| ==> StartsWith(ImageUrls(raw)[k], "http")
  {
    var c := Candidates(raw);
    var r := ImageUrls(raw);
    LargestPerFolderSpec(c);
    assert OnePerFolder(r, c);
    CandidatesAreUrls(raw);
    forall k | 0 <= k < |r| ensures StartsWith(r[k], "http") {
      assert r[k] in c;
    }
  }

  /** Every key with a pick is listed. */
  lemma {:induction false} PickedIsListed<T, K>(urls: seq<T>, m: Measure<T, K>, f: K)
    requires f in PickAll(urls, m).best
    ensures exists k :: 0 <= k < |PickAll(urls, m).order| && PickAll(urls, m).order[k] == f
    decreases |urls|
  {
    var init := urls[..|urls| - 1];
    var prev := PickAll(init, m);
    var p := PickAll(urls, m);
    if f in prev.best {
      PickedIsListed(init, m, f);
      var k :| 0 <= k < |prev.order| && prev.order[k] == f;
      assert p.order[k] == f;
    } else {
      assert p.order[|p.order| - 1] == f;
    }
  }

  /** `max(1, math.ceil(n / page_size))`. */
  function TotalPages(n: nat, size: nat): (r: nat)
    requires size > 0
    ensures r >= 1
    ensures n <= r * size
    ensures n > 0 ==> (r - 1) * size < n
    ensures n == 0 ==> r == 1
  {
    if n == 0 then 1 else (n + size - 1) / size
  }

  function Min(a: int, b: int): int {
    if a <= b then a else b
  }

  /** `f.iloc[(page - 1) * size : (page - 1) * size + size]`, clipped to the rows there are. */
  function PageRows<T>(rows: seq<T>, page: nat, size: nat): (r: seq<T>)
    requires page >= 1
    ensures |r| <= size
    ensures (page - 1) * size >= |rows| ==> r == []
    ensures page * size <= |rows| ==> |r| == size
  {
    var start := Min((page - 1) * size, |rows|);
    var end := Min((page - 1) * size + size, |rows|);
    rows[start..end]
  }

  /** The first `k` pages, one after another. */
  function FirstPages<T>(rows: seq<T>, size: nat, k: nat): seq<T> {
    if k == 0 then [] else FirstPages(rows, size, k - 1) + PageRows(rows, k, size)
  }

  lemma {:induction false} FirstPagesArePrefix<T>(rows: seq<T>, size: nat, k: nat)
    ensures FirstPages(rows, size, k) == rows[..Min(k * size, |rows|)]
  {
    if k > 0 {
      FirstPagesArePrefix(rows, size, k - 1);
      var x := (k - 1) * size;
      assert x + size == k * size;
      assert PageRows(rows, k, size) == rows[Min(x, |rows|)..Min(x + size, |rows|)];
      PrefixThenSlice(rows, x, x + size);
    }
  }

  lemma PrefixThenSlice<T>(rows: seq<T>, a: nat, b: nat)
    requires a <= b
    ensures rows[..Min(a, |rows|)] + rows[Min(a, |rows|)..Min(b, |rows|)] == rows[..Min(b, |rows|)]
  {
  }

  /** Reading pages 1 to `TotalPages` in turn shows every row once, in order. */
  lemma PagesCoverRows<T>(rows: seq<T>, size: nat)
    requires size > 0
    ensures FirstPages(rows, size, TotalPages(|rows|, size)) == rows
  {
    FirstPagesArePrefix(rows, size, TotalPages(|rows|, size));
    assert rows[..|rows|] == rows;
  }

  /** A dashboard row: the listing columns the filters read. */
  datatype Row = Row(
    source: string,
    make: Option<string>,
    model: Option<string>,
    title: Option<string>,
    year: Option<int>,
    price: Option<real>,
    mileage: Option<int>)

  /** The values of the filter widgets. */
  datatype FilterOptions = FilterOptions(
    marketcheckOnly: bool,
    under100k: bool,
    under30kMiles: bool,
    sources: seq<string>,
    keyword: string,
    yearMin: int,
    yearMax: int,
    priceMin: int,
    priceMax: int,
    milesMin: int,
    milesMax: int)

  /** The filters of the chain, in the order the dashboard applies them. */
  datatype Filter =
    | MarketcheckOnly | Under100k | Under30kMiles | SourceIn | Keyword
    | YearMin | YearMax | PriceMin | PriceMax | MilesMin | MilesMax

  /** Whether the widgets switch a filter on. */
  predicate Active(o: FilterOptions, f: Filter) {
    match f
    case MarketcheckOnly => o.marketcheckOnly
    case Under100k => o.under100k
    case Under30kMiles => o.under30kMiles
    case SourceIn => o.sources != []
    case Keyword => o.keyword != []
    case YearMin => o.yearMin != 0
    case YearMax => o.yearMax != 0 && o.yearMax < 2100
    case PriceMin => o.priceMin > 0
    case PriceMax => o.priceMax > 0
    case MilesMin => o.milesMin > 0
    case MilesMax => o.milesMax > 0
  }

  /** `fillna("")` on a text column. */
  function OrEmpty(s: Option<string>): string {
    if s.Some? then s.value else []
  }

  /** The text the keyword is looked up in: make, model and title, lower-cased. */
  function SearchText(r: Row): string {
    Lower(OrEmpty(r.make) + " " + OrEmpty(r.model) + " " + OrEmpty(r.title))
  }

  /** The row test of one filter; a missing value passes every range test. */
  predicate Admits(o: FilterOptions, f: Filter, r: Row) {
    match f
    case MarketcheckOnly => r.source == "marketcheck"
    case Under100k => r.price.None? || r.price.value <= 100000.0
    case Under30kMiles => r.mileage.None? || r.mileage.value <= 30000
    case SourceIn => r.source in o.sources
    case Keyword => Contains(SearchText(r), Lower(o.keyword))
    case YearMin => r.year.None? || r.year.value >= o.yearMin
    case YearMax => r.year.None? || r.year.value <= o.yearMax
    case PriceMin => r.price.None? || r.price.value >= o.priceMin as real
    case PriceMax => r.price.None? || r.price.value <= o.priceMax as real
    case MilesMin => r.mileage.None? || r.mileage.value >= o.milesMin
    case MilesMax => r.mileage.None? || r.mileage.value <= o.milesMax
  }

  /** A row stays on the dashboard when every active filter admits it. */
  predicate Keep(o: FilterOptions, r: Row) {
    forall f: Filter :: Active(o, f) ==> Admits(o, f, r)
  }

  /** `f[mask]` for one filter: the admitted rows, in order. */
  function Where(rows: seq<Row>, o: FilterOptions, f: Filter): (r: seq<Row>)
    ensures |r| <= |rows|
  {
    if rows == [] then []
    else (if Admits(o, f, rows[0]) then [rows[0]] else []) + Where(rows[1..], o, f)
  }

  /** The rows the dashboard shows, before sorting and paging. */
  function Shown(rows: seq<Row>, o: FilterOptions): (r: seq<Row>)
    ensures |r| <= |rows|
  {
    if rows == [] then []
    else (if Keep(o, rows[0]) then [rows[0]] else []) + Shown(rows[1..], o)
  }

  /** The filters in the order the dashboard applies them. */
  const Chain: seq<Filter> :=
    [MarketcheckOnly, Under100k, Under30kMiles, SourceIn, Keyword, YearMin, YearMax, PriceMin, PriceMax, MilesMin, MilesMax]

  /** Every filter is in the chain. */
  lemma InChain(f: Filter) returns (i: nat)
    ensures i < |Chain| && Chain[i] == f
  {
    match f
    case MarketcheckOnly => i := 0;
    case Under100k => i := 1;
    case Under30kMiles => i := 2;
    case SourceIn => i := 3;
    case Keyword => i := 4;
    case YearMin => i := 5;
    case YearMax => i := 6;
    case PriceMin => i := 7;
    case PriceMax => i := 8;
    case MilesMin => i := 9;
    case MilesMax => i := 10;
  }

  /** A row passes the first `n` filters of the chain. */
  predicate PassesFirst(o: FilterOptions, n: nat, r: Row)
    requires n <= |Chain|
  {
    forall i :: 0 <= i < n && Active(o, Chain[i]) ==> Admits(o, Chain[i], r)
  }

  /** The rows left after the first `n` filters of the chain. */
  function KeptBy(rows: seq<Row>, o: FilterOptions, n: nat): seq<Row>
    requires n <= |Chain|
  {
    if rows == [] then []
    else (if PassesFirst(o, n, rows[0]) then [rows[0]] else []) + KeptBy(rows[1..], o, n)
  }

  /** Applying the next filter of the chain narrows the kept rows by it. */
  lemma WhereNarrows(rows: seq<Row>, o: FilterOptions, n: nat)
    requires n < |Chain|
    ensures Active(o, Chain[n]) ==> Where(KeptBy(rows, o, n), o, Chain[n]) == KeptBy(rows, o, n + 1)
    ensures !Active(o, Chain[n]) ==> KeptBy(rows, o, n) == KeptBy(rows, o, n + 1)
  {
    if Active(o, Chain[n]) {
      ActiveNarrows(rows, o, n);
    } else {
      InactiveKeeps(rows, o, n);
    }
  }

  lemma PassesNext(o: FilterOptions, n: nat, r: Row)
    requires n < |Chain|
    ensures PassesFirst(o, n + 1, r) <==> PassesFirst(o, n, r) && (Active(o, Chain[n]) ==> Admits(o, Chain[n], r))
  {
  }

  lemma {:induction false} InactiveKeeps(rows: seq<Row>, o: FilterOptions, n: nat)
    requires n < |Chain| && !Active(o, Chain[n])
    ensures KeptBy(rows, o, n) == KeptBy(rows, o, n + 1)
    decreases |rows|
  {
    if rows != [] {
      InactiveKeeps(rows[1..], o, n);
      PassesNext(o, n, rows[0]);
    }
  }

  lemma {:induction false} ActiveNarrows(rows: seq<Row>, o: FilterOptions, n: nat)
    requires n < |Chain| && Active(o, Chain[n])
    ensures Where(KeptBy(rows, o, n), o, Chain[n]) == KeptBy(rows, o, n + 1)
    decreases |rows|
  {
    if rows != [] {
      ActiveNarrows(rows[1..], o, n);
      var r := rows[0];
      var rest := KeptBy(rows[1..], o, n);
      PassesNext(o, n, r);
      if PassesFirst(o, n, r) {
        assert KeptBy(rows, o, n) == [r] + rest;
        assert ([r] + rest)[0] == r && ([r] + rest)[1..] == rest;
      } else {
        assert KeptBy(rows, o, n) == [] + rest == rest;
      }
    }
  }

  /** After the whole chain, the kept rows are the shown rows. */
  lemma {:induction false} WholeChainShown(rows: seq<Row>, o: FilterOptions)
    ensures KeptBy(rows, o, |Chain|) == Shown(rows, o)
    decreases |rows|
  {
    if rows != [] {
      WholeChainShown(rows[1..], o);
      if PassesFirst(o, |Chain|, rows[0]) {
        forall f: Filter | Active(o, f)
          ensures Admits(o, f, rows[0])
        {
          var i := InChain(f);
        }
      }
    }
  }

  lemma {:induction false} KeptByNone(rows: seq<Row>, o: FilterOptions)
    ensures KeptBy(rows, o, 0) == rows
    decreases |rows|
  {
    if rows != [] {
      KeptByNone(rows[1..], o);
      assert [rows[0]] + rows[1..] == rows;
    }
  }

  /** The filter chain of the dashboard, reassigning `f` filter by filter. */
  method ApplyFilters(rows: seq<Row>, o: FilterOptions) returns (f: seq<Row>)
    ensures f == Shown(rows, o)
  {
    f := rows;
    KeptByNone(rows, o);
    f := Step(rows, o, 0, f);   // Marketcheck only
    f := Step(rows, o, 1, f);   // under $100k
    f := Step(rows, o, 2, f);   // under 30k miles
    f := Step(rows, o, 3, f);   // selected sources
    f := Step(rows, o, 4, f);   // keyword
    f := Step(rows, o, 5, f);   // year min
    f := Step(rows, o, 6, f);   // year max
    f := Step(rows, o, 7, f);   // price min
    f := Step(rows, o, 8, f);   // price max
    f := Step(rows, o, 9, f);   // mileage min
    f := Step(rows, o, 10, f);  // mileage max
    WholeChainShown(rows, o);
  }

  /** `if <widget>: f = f[<mask>]` for the `n`-th filter of the chain. */
  method Step(ghost rows: seq<Row>, o: FilterOptions, n: nat, f: seq<Row>) returns (g: seq<Row>)
    requires n < |Chain| && f == KeptBy(rows, o, n)
    ensures g == KeptBy(rows, o, n + 1)
  {
    WhereNarrows(rows, o, n);
    if Active(o, Chain[n]) {
      g := Where(f, o, Chain[n]);
    } else {
      g := f;
    }
  }

  /** The shown rows are exactly the input rows every active filter admits, in their input order. */
  lemma {:induction false} ShownMembers(rows: seq<Row>, o: FilterOptions)
    ensures forall r :: r in Shown(rows, o) <==> r in rows && Keep(o, r)
    decreases |rows|
  {
    if rows != [] {
      ShownMembers(rows[1..], o);
      assert rows == [rows[0]] + rows[1..];
    }
  }

  /** A row missing year, price and mileage passes every range filter, whatever the bounds. */
  lemma MissingValuesPass(o: FilterOptions, r: Row, f: Filter)
    requires r.year.None? && r.price.None? && r.mileage.None?
    requires f !in {MarketcheckOnly, SourceIn, Keyword}
    ensures Admits(o, f, r)
  {
  }

  /** The dashboard's default widgets (all sources selected, years 1900 to 2100, no bounds) hide only rows dated before 1900. */
  lemma DefaultsHideOnlyOldRows(sources: seq<string>, r: Row)
    requires sources != [] && r.source in sources
    ensures var o := FilterOptions(false, false, false, sources, "", 1900, 2100, 0, 0, 0, 0);
      Keep(o, r) <==> r.year.None? || r.year.value >= 1900
  {
    var o := FilterOptions(false, false, false, sources, "", 1900, 2100, 0, 0, 0, 0);
    assert Active(o, YearMin) && !Active(o, YearMax);
    if r.year.None? || r.year.value >= 1900 {
      forall f: Filter | Active(o, f)
        ensures Admits(o, f, r)
      {
        var i := InChain(f);
      }
    }
  }

  lemma LowerTwice(s: string)
    ensures Lower(Lower(s)) == Lower(s)
  {
  }

  lemma LowerConcat(a: string, b: string)
    ensures Lower(a + b) == Lower(a) + Lower(b)
  {
  }

  /** The keyword filter ignores the keyword's case. */
  lemma KeywordIgnoresCase(o: FilterOptions, r: Row)
    ensures Admits(o, Keyword, r) <==> Admits(o.(keyword := Lower(o.keyword)), Keyword, r)
  {
    LowerTwice(o.keyword);
  }

  /** A keyword naming the make, in any case, finds the row. */
  lemma KeywordFindsMake(o: FilterOptions, r: Row)
    requires r.make.Some? && Lower(o.keyword) == Lower(r.make.value)
    ensures Admits(o, Keyword, r)
  {
    var m := r.make.value;
    var rest := " " + OrEmpty(r.model) + " " + OrEmpty(r.title);
    assert OrEmpty(r.make) + " " + OrEmpty(r.model) + " " + OrEmpty(r.title) == m + rest;
    LowerConcat(m, rest);
    var t := SearchText(r);
    assert t[..|Lower(m)|] == Lower(m);
    assert OccursAt(t, Lower(o.keyword), 0);
    ContainsIff(t, Lower(o.keyword));
  }

  /** Every page the page widget allows holds at least one row when there are rows. */
  lemma PagesInRangeAreFilled<T>(rows: seq<T>, size: nat, page: nat)
    requires size > 0 && rows != []
    requires 1 <= page <= TotalPages(|rows|, size)
    ensures PageRows(rows, page, size) != []
  {
    var t := TotalPages(|rows|, size);
    MulMonotone(page - 1, t - 1, size);
  }

  lemma {:induction false} MulMonotone(a: nat, b: nat, c: nat)
    requires a <= b
    ensures a * c <= b * c
    decreases b - a
  {
    if a < b {
      MulMonotone(a, b - 1, c);
      assert (b - 1) * c + c == b * c;
    }
  }
}

