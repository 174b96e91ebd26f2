/**
 * `src/storage/database.py`: the listing table, whose `external_id` column is
 * unique, and the query-parameter scrubbing `init_db` applies to the database URL.
 */
module Database {
  import opened Wrappers
  import opened Text
  import opened PyJson

  /** One row of the `listings` table. */
  datatype ListingRow = ListingRow(
    agentId: string,
    source: string,
    externalId: string,
    url: string,
    title: string,
    price: Option<real>,
    mileage: Option<int>,
    year: Option<int>,
    make: Option<string>,
    model: Option<string>,
    rawJson: map<string, Json>,
    matchScore: nat,
    alerted: bool := false)

  function IdsOf(rows: seq<ListingRow>): set<string> {
    set r | r in rows :: r.externalId
  }

  /** The UNIQUE constraint on `external_id`. */
  ghost predicate UniqueExternalIds(rows: seq<ListingRow>) {
    forall i, j :: 0 <= i < j < |rows| ==> rows[i].externalId != rows[j].externalId
  }

  /** The rows with `alerted` set on those whose external id is in `ids`. */
  function WithAlerted(rows: seq<ListingRow>, ids: set<string>): (r: seq<ListingRow>)
    ensures |r| == |rows|
    ensures forall i :: 0 <= i < |rows| ==>
      r[i] == rows[i].(alerted := rows[i].alerted || rows[i].externalId in ids)
  {
    seq(|rows|, i requires 0 <= i < |rows| =>
      if rows[i].externalId in ids then rows[i].(alerted := true) else rows[i])
  }

  /** The `agents` and `listings` tables, as far as the agent run touches them. */
  class ListingTable {
    var rows: seq<ListingRow>
    var agentIds: set<string>

    ghost predicate Valid()
      reads this
    {
      UniqueExternalIds(rows)
    }

    constructor ()
      ensures Valid() && rows == [] && agentIds == {}
    {
      rows := [];
      agentIds := {};
    }

    /** `select(Listing).where(Listing.external_id == id)` finds a row. */
    method HasExternalId(id: string) returns (found: bool)
      ensures found <==> exists i :: 0 <= i < |rows| && rows[i].externalId == id
    {
      found := id in IdsOf(rows);
      if found {
        var r :| r in rows && r.externalId == id;
        var i :| 0 <= i < |rows| && rows[i] == r;
      }
    }

    /** `session.add(Agent(...))` for an agent id not yet stored. */
    method AddAgent(id: string)
      modifies this
      ensures agentIds == old(agentIds) + {id} && rows == old(rows)
    {
      agentIds := agentIds + {id};
    }

    /** `session.add(Listing(...))`; the unique constraint demands a fresh external id. */
    method AddListing(row: ListingRow)
      requires Valid() && row.externalId !in IdsOf(rows)
      modifies this
      ensures Valid()
      ensures rows == old(rows) + [row] && agentIds == old(agentIds)
    {
      assert forall i :: 0 <= i < |rows| ==> rows[i].externalId in IdsOf(rows);
      rows := rows + [row];
    }

    /** `m.alerted = True` for every listing of `ids`; nothing else changes. */
    method MarkAlerted(ids: set<string>)
      requires Valid()
      modifies this
      ensures Valid()
      ensures rows == WithAlerted(old(rows), ids) && agentIds == old(agentIds)
    {
      rows := WithAlerted(rows, ids);
    }
  }

  /** A query parameter `init_db` removes. */
  predicate Unsupported(param: string) {
    StartsWith(param, "sslmode=") || StartsWith(param, "channel_binding=")
  }

  /** The parameters kept, in their original order. */
  function Supported(params: seq<string>): (r: seq<string>)
    ensures forall k :: 0 <= k < |r| ==> !Unsupported(r[k]) && r[k] in params
    ensures forall x :: x in params && !Unsupported(x) ==> x in r
    ensures (forall k :: 0 <= k < |params| ==> !Unsupported(params[k])) ==> r == params
  {
    if params == [] then []
    else if Unsupported(params[0]) then Supported(params[1..])
    else [params[0]] + Supported(params[1..])
  }

  /** A single parameter is kept exactly when it is supported. */
  lemma SupportedSingle(x: string)
    ensures Supported([x]) == if Unsupported(x) then [] else [x]
  {
    assert [x][1..] == [];
  }

  /** The filter keeps order: the parameters of `a + b` are those of `a`, then those of `b`. */
  lemma {:induction false} SupportedConcat(a: seq<string>, b: seq<string>)
    ensures Supported(a + b) == Supported(a) + Supported(b)
    decreases |a|
  {
    if a != [] {
      assert (a + b)[0] == a[0];
      assert (a + b)[1..] == a[1..] + b;
      SupportedConcat(a[1..], b);
    } else {
      assert a + b == b;
    }
  }

  /** The database URL with `sslmode=` and `channel_binding=` parameters removed. */
  function ScrubUrl(url: string): string {
    match IndexOf(url, "?")
    case None => url
    case Some(q) =>
      var kept := Supported(Split(url[q + 1..], '&'));
      url[..q] + (if kept != [] then "?" + Join(kept, '&') else "")
  }

  /** `connect_args` carries `ssl` exactly when the scrubbed URL names `neon.tech`. */
  function UsesSsl(url: string): bool {
    Contains(ScrubUrl(url), "neon.tech")
  }

  lemma NoQuestionMark(s: string, q: nat)
    requires q <= |s|
    requires forall j :: 0 <= j < q ==> !OccursAt(s, "?", j)
    ensures !Contains(s[..q], "?")
  {
    if Contains(s[..q], "?") {
      var j := IndexOf(s[..q], "?").value;
      assert s[..q][j..j + 1] == s[j..j + 1];
      assert OccursAt(s, "?", j);
    }
  }

  /** A URL without `?` passes through unchanged. */
  lemma ScrubWithoutQuery(url: string)
    requires !Contains(url, "?")
    ensures ScrubUrl(url) == url
  {
  }

  /**
   * With a query: the base before the first `?` is kept verbatim, and the
   * query of the result is exactly the supported parameters, in order; when
   * none is left the result is the bare base.
   */
  lemma {:induction false} ScrubWithQuery(url: string)
    requires Contains(url, "?")
    ensures var q := IndexOf(url, "?").value;
      var kept := Supported(Split(url[q + 1..], '&'));
      && !Contains(url[..q], "?")
      && (kept == [] ==> ScrubUrl(url) == url[..q])
      && (kept != [] ==>
            && ScrubUrl(url) == url[..q] + "?" + Join(kept, '&')
            && Split(ScrubUrl(url)[q + 1..], '&') == kept)
  {
    var q := IndexOf(url, "?").value;
    var kept := Supported(Split(url[q + 1..], '&'));
    NoQuestionMark(url, q);
    if kept != [] {
      var r := ScrubUrl(url);
      assert r == url[..q] + "?" + Join(kept, '&');
      assert r[q + 1..] == Join(kept, '&');
      SplitJoin(kept, '&');
    }
  }

  /** No parameter of the scrubbed URL's query is `sslmode=` or `channel_binding=`. */
  lemma ScrubRemovesUnsupported(url: string)
    requires Contains(ScrubUrl(url), "?")
    ensures var r := ScrubUrl(url);
      var q := IndexOf(r, "?").value;
      var ps := Split(r[q + 1..], '&');
      forall k :: 0 <= k < |ps| ==> !Unsupported(ps[k])
  {
    if !Contains(url, "?") {
      ScrubWithoutQuery(url);
      assert false;
    }
    ScrubWithQuery(url);
    var q := IndexOf(url, "?").value;
    var r := ScrubUrl(url);
    QueryPositionAfterScrub(url);
  }

  /** In a scrubbed URL that still has a query, the `?` sits where it did in the original. */
  lemma QueryPositionAfterScrub(url: string)
    requires Contains(url, "?")
    ensures var q := IndexOf(url, "?").value;
      Supported(Split(url[q + 1..], '&')) != [] ==> IndexOf(ScrubUrl(url), "?") == Some(q)
  {
    var q := IndexOf(url, "?").value;
    var kept := Supported(Split(url[q + 1..], '&'));
    NoQuestionMark(url, q);
    if kept != [] {
      var r := ScrubUrl(url);
      assert r == url[..q] + "?" + Join(kept, '&');
      assert OccursAt(r, "?", q);
      assert r[..q] == url[..q];
      forall j | 0 <= j < q ensures !OccursAt(r, "?", j) {
        assert r[j] == r[..q][j] == url[j];
        assert r[j..j + 1] == [r[j]];
        assert url[j..j + 1] == [url[j]];
        assert !OccursAt(url, "?", j);
      }
    }
  }

  /** Scrubbing twice is scrubbing once. */
  lemma ScrubIdempotent(url: string)
    ensures ScrubUrl(ScrubUrl(url)) == ScrubUrl(url)
  {
    if Contains(url, "?") {
      ScrubWithQuery(url);
      var q := IndexOf(url, "?").value;
      var kept := Supported(Split(url[q + 1..], '&'));
      var r := ScrubUrl(url);
      if kept == [] {
        assert r == url[..q];
        ScrubWithoutQuery(r);
      } else {
        QueryPositionAfterScrub(url);
        assert r[..q] == url[..q];
        assert Split(r[q + 1..], '&') == kept;
        assert Supported(kept) == kept;
      }
    }
  }

  /** A `neon.tech` host keeps its SSL requirement through the scrub. */
  lemma NeonHostUsesSsl(url: string)
    requires Contains(url, "?")
    requires Contains(url[..IndexOf(url, "?").value], "neon.tech")
    ensures UsesSsl(url)
  {
    var q := IndexOf(url, "?").value;
    var r := ScrubUrl(url);
    assert r[..q] == url[..q];
    ContainsPrefix(r, q, "neon.tech");
  }
}
