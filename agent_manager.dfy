/**
 * `src/core/agent_manager.py`: one agent run gathers listings from its
 * sources, keeps the matches whose external id is not stored yet, stores
 * them, and produces one alert for them; the run of all agents picks the
 * enabled agents whose stored configuration parses.
 */
module AgentManager {
  import opened Wrappers
  import opened Config
  import opened Listings
  import opened FilterEngine
  import opened Database

  /** The keys of the `providers` dictionary. */
  const Providers: set<string> := {"bringatrailer", "cars_com", "carfax", "autonation", "marketcheck"}

  /** Consecutive empty or failed vehicle searches after which a source is abandoned. */
  const FailureLimit: nat := 10

  /** Sources that are never abandoned, however many searches come back empty. */
  predicate NeverAbandoned(source: string) {
    source == "marketcheck" || source == "bringatrailer"
  }

  /** One `provider.search(...)` call: the source and the parameters it was given. */
  datatype Request = Request(source: string, params: AgentParameters)

  /** What a stretch of the run collected, and the searches it made, in order. */
  datatype Gathered = Gathered(listings: seq<RawListing>, requests: seq<Request>)

  function Then(a: Gathered, b: Gathered): Gathered {
    Gathered(a.listings + b.listings, a.requests + b.requests)
  }

  /** The per-vehicle copy of the parameters: one make, one model, that vehicle's years. */
  function VehicleParams(p: AgentParameters, v: VehicleCriteria): AgentParameters {
    p.(makes := [v.make], models := [v.model], yearMin := v.yearMin, yearMax := v.yearMax)
  }

  /** The listings a search contributes: those it returned, none if it raised. */
  function Yield(o: SearchOutcome): seq<RawListing> {
    if o.Found? then o.listings else []
  }

  /** A search that counts as a failure: it raised or returned nothing. */
  predicate Failed(o: SearchOutcome) {
    o.Raised? || o.listings == []
  }

  /** `consecutive_failures` after one more search. */
  function Step(failures: nat, o: SearchOutcome): nat {
    if Failed(o) then failures + 1 else 0
  }

  /** `consecutive_failures` after a run of searches, starting from `failures`. */
  function Counter(failures: nat, os: seq<SearchOutcome>): nat
    decreases |os|
  {
    if os == [] then failures else Counter(Step(failures, os[0]), os[1..])
  }

  /** How many searches at the end of `os` failed in a row. */
  function TrailingFailures(os: seq<SearchOutcome>): (n: nat)
    ensures n <= |os|
  {
    if os == [] then 0
    else if Failed(os[|os| - 1]) then TrailingFailures(os[..|os| - 1]) + 1
    else 0
  }

  /** The outcomes of searching each vehicle of `vs`. */
  function Outcomes(search: SearchFn, source: string, p: AgentParameters, vs: seq<VehicleCriteria>): (os: seq<SearchOutcome>)
    ensures |os| == |vs|
    ensures forall i :: 0 <= i < |vs| ==> os[i] == search(source, VehicleParams(p, vs[i]))
  {
    seq(|vs|, i requires 0 <= i < |vs| => search(source, VehicleParams(p, vs[i])))
  }

  /**
   * Whether the vehicle loop breaks right after the `k`-th search of `os`:
   * that search returned (did not raise), the counter reached the limit, and
   * the source may be abandoned.
   */
  predicate BreaksAfter(source: string, failures: nat, os: seq<SearchOutcome>, k: nat)
    requires 1 <= k <= |os|
  {
    os[k - 1].Found? && Counter(failures, os[..k]) >= FailureLimit && !NeverAbandoned(source)
  }

  /** The vehicle loop over `vs`, entered with `failures` consecutive failures. */
  function VehicleSearches(search: SearchFn, source: string, p: AgentParameters, vs: seq<VehicleCriteria>, failures: nat): Gathered
    decreases |vs|
  {
    if vs == [] then Gathered([], [])
    else
      var q := VehicleParams(p, vs[0]);
      var o := search(source, q);
      var f := Step(failures, o);
      var here := Gathered(Yield(o), [Request(source, q)]);
      if o.Found? && f >= FailureLimit && !NeverAbandoned(source) then here
      else Then(here, VehicleSearches(search, source, p, vs[1..], f))
  }

  lemma ThenAssoc(a: Gathered, b: Gathered, c: Gathered)
    ensures Then(Then(a, b), c) == Then(a, Then(b, c))
  {
    assert (a.listings + b.listings) + c.listings == a.listings + (b.listings + c.listings);
    assert (a.requests + b.requests) + c.requests == a.requests + (b.requests + c.requests);
  }

  /** One turn of the vehicle loop, as `VehicleSearches` sees it. */
  lemma VehicleStep(search: SearchFn, source: string, p: AgentParameters, vs: seq<VehicleCriteria>, i: nat, failures: nat)
    requires i < |vs|
    ensures var q := VehicleParams(p, vs[i]);
      var o := search(source, q);
      var here := Gathered(Yield(o), [Request(source, q)]);
      VehicleSearches(search, source, p, vs[i..], failures)
        == if o.Found? && Step(failures, o) >= FailureLimit && !NeverAbandoned(source) then here
           else Then(here, VehicleSearches(search, source, p, vs[i + 1..], Step(failures, o)))
  {
    assert vs[i..][1..] == vs[i + 1..];
  }

  /** The `for vehicle in agent_cfg.parameters.vehicles` loop of one source. */
  method SearchVehicles(search: SearchFn, source: string, p: AgentParameters)
    returns (found: seq<RawListing>, requests: seq<Request>)
    ensures Gathered(found, requests) == VehicleSearches(search, source, p, p.vehicles, 0)
  {
    var vs := p.vehicles;
    found, requests := [], [];
    var failures: nat := 0;
    var i := 0;
    ghost var goal := VehicleSearches(search, source, p, vs, 0);
    while i < |vs|
      invariant i <= |vs|
      invariant Then(Gathered(found, requests), VehicleSearches(search, source, p, vs[i..], failures)) == goal
    {
      var q := VehicleParams(p, vs[i]);
      var o := search(source, q);
      VehicleStep(search, source, p, vs, i, failures);
      ghost var here := Gathered(Yield(o), [Request(source, q)]);
      ghost var before := Gathered(found, requests);
      ghost var f0 := failures;
      if o.Found? && o.listings != [] {
        found := found + o.listings;
        failures := 0;
      } else {
        failures := failures + 1;
      }
      requests := requests + [Request(source, q)];
      assert failures == Step(f0, o);
      assert Gathered(found, requests) == Then(before, here);
      assert (source !in ["marketcheck", "bringatrailer"]) == !NeverAbandoned(source);
      if o.Found? && failures >= FailureLimit && source !in ["marketcheck", "bringatrailer"] {
        assert VehicleSearches(search, source, p, vs[i..], f0) == here;
        assert Then(Gathered(found, requests), Gathered([], [])) == Gathered(found, requests);
        return;
      }
      ghost var rest := VehicleSearches(search, source, p, vs[i + 1..], failures);
      assert VehicleSearches(search, source, p, vs[i..], f0) == Then(here, rest);
      ThenAssoc(before, here, rest);
      i := i + 1;
    }
    assert vs[i..] == [];
    assert Then(Gathered(found, requests), Gathered([], [])) == Gathered(found, requests);
  }

  /** What one entry of `agent_cfg.sources` contributes. */
  function SourceSearches(search: SearchFn, source: string, p: AgentParameters): Gathered {
    if source !in Providers then Gathered([], [])
    else if source == "bringatrailer" || p.vehicles == [] then
      Gathered(Yield(search(source, p)), [Request(source, p)])
    else VehicleSearches(search, source, p, p.vehicles, 0)
  }

  /** Everything the source loop of `run_agent` collects, source after source. */
  function AllSearches(search: SearchFn, sources: seq<string>, p: AgentParameters): Gathered
    decreases |sources|
  {
    if sources == [] then Gathered([], [])
    else Then(SourceSearches(search, sources[0], p), AllSearches(search, sources[1..], p))
  }

  lemma SourceStep(search: SearchFn, sources: seq<string>, i: nat, p: AgentParameters, acc: Gathered)
    requires i < |sources|
    ensures Then(Then(acc, SourceSearches(search, sources[i], p)), AllSearches(search, sources[i + 1..], p))
            == Then(acc, AllSearches(search, sources[i..], p))
  {
    assert sources[i..][1..] == sources[i + 1..];
  }

  /** The body of the source loop for one entry of `agent_cfg.sources`. */
  method SearchSource(search: SearchFn, source: string, p: AgentParameters)
    returns (found: seq<RawListing>, made: seq<Request>)
    ensures Gathered(found, made) == SourceSearches(search, source, p)
  {
    if source !in Providers {
      return [], [];
    }
    if source == "bringatrailer" {
      var o := search(source, p);
      return Yield(o), [Request(source, p)];
    }
    if p.vehicles != [] {
      found, made := SearchVehicles(search, source, p);
    } else {
      var o := search(source, p);
      found, made := Yield(o), [Request(source, p)];
    }
  }

  /** The `for source in agent_cfg.sources` loop. */
  method GatherListings(search: SearchFn, sources: seq<string>, p: AgentParameters)
    returns (all: seq<RawListing>, requests: seq<Request>)
    ensures Gathered(all, requests) == AllSearches(search, sources, p)
  {
    all, requests := [], [];
    for i := 0 to |sources|
      invariant Then(Gathered(all, requests), AllSearches(search, sources[i..], p))
                == AllSearches(search, sources, p)
    {
      SourceStep(search, sources, i, p, Gathered(all, requests));
      var found, made := SearchSource(search, sources[i], p);
      all, requests := all + found, requests + made;
    }
    assert sources[|sources|..] == [];
  }

  /** The listings of a run of searches, in order. */
  function Collected(os: seq<SearchOutcome>): seq<RawListing>
    decreases |os|
  {
    if os == [] then [] else Yield(os[0]) + Collected(os[1..])
  }

  lemma {:induction false} CollectedMembers(os: seq<SearchOutcome>, l: RawListing)
    requires l in Collected(os)
    ensures exists i :: 0 <= i < |os| && l in Yield(os[i])
    decreases |os|
  {
    if l !in Yield(os[0]) {
      CollectedMembers(os[1..], l);
      var i :| 0 <= i < |os[1..]| && l in Yield(os[1..][i]);
      assert os[1..][i] == os[i + 1];
    }
  }

  /**
   * The vehicle loop searches the vehicles in order, each with its own
   * make, model and years, stops only early, never before the first
   * vehicle, and keeps every listing those searches returned, in order.
   */
  lemma {:induction false} VehicleRequests(search: SearchFn, source: string, p: AgentParameters, vs: seq<VehicleCriteria>, failures: nat)
    ensures var g := VehicleSearches(search, source, p, vs, failures);
      && (vs != [] ==> 1 <= |g.requests|)
      && |g.requests| <= |vs|
      && (forall i :: 0 <= i < |g.requests| ==> g.requests[i] == Request(source, VehicleParams(p, vs[i])))
      && g.listings == Collected(Outcomes(search, source, p, vs)[..|g.requests|])
    decreases |vs|
  {
    if vs != [] {
      var g := VehicleSearches(search, source, p, vs, failures);
      var os := Outcomes(search, source, p, vs);
      var o := os[0];
      var next := Step(failures, o);
      if o.Found? && next >= FailureLimit && !NeverAbandoned(source) {
        assert os[..1][1..] == [];
      } else {
        var g' := VehicleSearches(search, source, p, vs[1..], next);
        VehicleRequests(search, source, p, vs[1..], next);
        var n := |g.requests|;
        assert Outcomes(search, source, p, vs[1..]) == os[1..];
        assert os[..n][1..] == os[1..][..n - 1];
        forall i | 0 <= i < n ensures g.requests[i] == Request(source, VehicleParams(p, vs[i])) {
          if i > 0 { assert g.requests[i] == g'.requests[i - 1]; }
        }
      }
    }
  }

  lemma BreaksShift(source: string, failures: nat, os: seq<SearchOutcome>, k: nat)
    requires 1 <= k < |os|
    ensures BreaksAfter(source, failures, os, k + 1) == BreaksAfter(source, Step(failures, os[0]), os[1..], k)
  {
    assert os[..k + 1][1..] == os[1..][..k];
  }

  /**
   * A loop over the outcomes `os` that made `n` searches stopped exactly at
   * the first search after which the break condition held, or ran to the end.
   */
  ghost predicate StopsAtFirstBreak(source: string, failures: nat, os: seq<SearchOutcome>, n: nat) {
    && n <= |os|
    && (n < |os| ==> 1 <= n && BreaksAfter(source, failures, os, n))
    && (forall k :: 1 <= k < n ==> !BreaksAfter(source, failures, os, k))
  }

  /** Stopping at the first break after a first search that did not break. */
  lemma BreaksLater(source: string, failures: nat, os: seq<SearchOutcome>, n: nat)
    requires 1 <= |os| && !BreaksAfter(source, failures, os, 1)
    requires StopsAtFirstBreak(source, Step(failures, os[0]), os[1..], n)
    ensures StopsAtFirstBreak(source, failures, os, n + 1)
  {
    if n + 1 < |os| {
      BreaksShift(source, failures, os, n);
    }
    forall k | 1 <= k < n + 1 ensures !BreaksAfter(source, failures, os, k) {
      if k > 1 { BreaksShift(source, failures, os, k - 1); }
    }
  }

  /**
   * The vehicle loop ends early exactly at the first search after which
   * the loop's break condition holds, and not before.
   */
  lemma {:induction false} VehicleLoopBreaks(search: SearchFn, source: string, p: AgentParameters, vs: seq<VehicleCriteria>, failures: nat)
    ensures StopsAtFirstBreak(source, failures, Outcomes(search, source, p, vs), |VehicleSearches(search, source, p, vs, failures).requests|)
    decreases |vs|
  {
    if vs != [] {
      var os := Outcomes(search, source, p, vs);
      var o := os[0];
      var next := Step(failures, o);
      assert os[..1][1..] == [];
      assert Counter(failures, os[..1]) == next;
      var g := VehicleSearches(search, source, p, vs, failures);
      if o.Found? && next >= FailureLimit && !NeverAbandoned(source) {
        assert |g.requests| == 1;
      } else {
        var g' := VehicleSearches(search, source, p, vs[1..], next);
        VehicleLoopBreaks(search, source, p, vs[1..], next);
        assert Outcomes(search, source, p, vs[1..]) == os[1..];
        assert |g.requests| == |g'.requests| + 1;
        BreaksLater(source, failures, os, |g'.requests|);
      }
    }
  }

  lemma {:induction false} CounterSnoc(failures: nat, os: seq<SearchOutcome>, o: SearchOutcome)
    ensures Counter(failures, os + [o]) == Step(Counter(failures, os), o)
    decreases |os|
  {
    if os != [] {
      assert (os + [o])[1..] == os[1..] + [o];
      CounterSnoc(Step(failures, os[0]), os[1..], o);
    }
  }

  /** From zero, `consecutive_failures` is the number of failures at the end of the run. */
  lemma {:induction false} CounterCountsTrailingFailures(os: seq<SearchOutcome>)
    ensures Counter(0, os) == TrailingFailures(os)
    decreases |os|
  {
    if os != [] {
      var init := os[..|os| - 1];
      assert os == init + [os[|os| - 1]];
      CounterSnoc(0, init, os[|os| - 1]);
      CounterCountsTrailingFailures(init);
    }
  }

  /** At least `n` failures at the end: the last `n` searches all failed. */
  lemma {:induction false} TrailingFailuresAtLeast(os: seq<SearchOutcome>, n: nat)
    ensures TrailingFailures(os) >= n <==> n <= |os| && forall j :: |os| - n <= j < |os| ==> Failed(os[j])
    decreases |os|
  {
    if os != [] && n > 0 {
      var init := os[..|os| - 1];
      TrailingFailuresAtLeast(init, n - 1);
      if n <= |os| && forall j :: |os| - n <= j < |os| ==> Failed(os[j]) {
        forall j | |init| - (n - 1) <= j < |init| ensures Failed(init[j]) {
          assert init[j] == os[j];
        }
      }
      if TrailingFailures(os) >= n {
        forall j | |os| - n <= j < |os| ensures Failed(os[j]) {
          if j < |os| - 1 { assert init[j] == os[j]; }
        }
      }
    }
  }

  /**
   * The break rule of `run_agent` in plain terms: a source other than
   * `marketcheck` and `bringatrailer` is abandoned after the `n`-th vehicle
   * only if that search returned and it and the nine before it all came
   * back empty or raised; and no earlier search met that condition.
   */
  lemma VehicleLoopAbandonsAfterTenFailures(search: SearchFn, source: string, p: AgentParameters)
    ensures var vs := p.vehicles;
      var n := |VehicleSearches(search, source, p, vs, 0).requests|;
      var os := Outcomes(search, source, p, vs);
      && n <= |vs|
      && (n < |vs| ==>
            && !NeverAbandoned(source)
            && FailureLimit <= n
            && os[n - 1].Found?
            && forall j :: n - FailureLimit <= j < n ==> Failed(os[j]))
      && (forall i :: 0 <= i < n - 1 && !NeverAbandoned(source) && os[i].Found? && FailureLimit <= i + 1 ==>
            exists j :: i + 1 - FailureLimit <= j <= i && !Failed(os[j]))
  {
    var vs := p.vehicles;
    var n := |VehicleSearches(search, source, p, vs, 0).requests|;
    var os := Outcomes(search, source, p, vs);
    VehicleLoopBreaks(search, source, p, vs, 0);
    assert StopsAtFirstBreak(source, 0, os, n);
    BreakRule(source, os, n);
  }

  /** The break rule for a loop over the outcomes `os` that made `n` searches. */
  lemma BreakRule(source: string, os: seq<SearchOutcome>, n: nat)
    requires StopsAtFirstBreak(source, 0, os, n)
    ensures n < |os| ==>
      && !NeverAbandoned(source)
      && FailureLimit <= n
      && os[n - 1].Found?
      && forall j :: n - FailureLimit <= j < n ==> Failed(os[j])
    ensures forall i :: 0 <= i < n - 1 && !NeverAbandoned(source) && os[i].Found? && FailureLimit <= i + 1 ==>
      exists j :: i + 1 - FailureLimit <= j <= i && !Failed(os[j])
  {
    if n < |os| {
      AbandonedAfterFailures(source, os, n);
    }
    forall i | 0 <= i < n - 1 && !NeverAbandoned(source) && os[i].Found? && FailureLimit <= i + 1
      ensures exists j :: i + 1 - FailureLimit <= j <= i && !Failed(os[j])
    {
      NotAbandonedAt(source, os, i + 1);
    }
  }

  /** Breaking after the `n`-th search means the last ten searches up to it failed. */
  lemma AbandonedAfterFailures(source: string, os: seq<SearchOutcome>, n: nat)
    requires 1 <= n <= |os| && BreaksAfter(source, 0, os, n)
    ensures !NeverAbandoned(source) && FailureLimit <= n && os[n - 1].Found?
    ensures forall j :: n - FailureLimit <= j < n ==> Failed(os[j])
  {
    CounterCountsTrailingFailures(os[..n]);
    TrailingFailuresAtLeast(os[..n], FailureLimit);
    forall j | n - FailureLimit <= j < n ensures Failed(os[j]) {
      assert os[..n][j] == os[j];
    }
  }

  /** Not breaking after the `k`-th search, which returned, leaves a success among the last ten. */
  lemma NotAbandonedAt(source: string, os: seq<SearchOutcome>, k: nat)
    requires 1 <= k <= |os| && !BreaksAfter(source, 0, os, k)
    requires !NeverAbandoned(source) && os[k - 1].Found? && FailureLimit <= k
    ensures exists j :: k - FailureLimit <= j < k && !Failed(os[j])
  {
    CounterCountsTrailingFailures(os[..k]);
    TrailingFailuresAtLeast(os[..k], FailureLimit);
    var j :| |os[..k]| - FailureLimit <= j < |os[..k]| && !Failed(os[..k][j]);
    assert os[..k][j] == os[j];
  }

  /** `marketcheck` and `bringatrailer` search every vehicle, whatever comes back. */
  lemma ExemptSourcesSearchEveryVehicle(search: SearchFn, source: string, p: AgentParameters)
    requires NeverAbandoned(source)
    ensures |VehicleSearches(search, source, p, p.vehicles, 0).requests| == |p.vehicles|
  {
    VehicleLoopBreaks(search, source, p, p.vehicles, 0);
  }

  /** Searches that raise are counted but never end the loop on their own. */
  lemma RaisingSearchesNeverAbandon(search: SearchFn, source: string, p: AgentParameters)
    requires forall i :: 0 <= i < |p.vehicles| ==> search(source, VehicleParams(p, p.vehicles[i])).Raised?
    ensures |VehicleSearches(search, source, p, p.vehicles, 0).requests| == |p.vehicles|
  {
    VehicleLoopBreaks(search, source, p, p.vehicles, 0);
  }

  /** What holds of the searches of every run, stated for `g`. */
  ghost predicate SearchedAsConfigured(search: SearchFn, sources: seq<string>, p: AgentParameters, g: Gathered) {
    && (forall r :: r in g.requests ==> r.source in Providers && r.source in sources)
    && (forall r :: r in g.requests && (r.source == "bringatrailer" || p.vehicles == []) ==> r.params == p)
    && (forall r :: r in g.requests && r.source != "bringatrailer" && p.vehicles != [] ==>
          exists v :: v in p.vehicles && r.params == VehicleParams(p, v))
    && (forall s :: s in sources && s in Providers ==> exists r :: r in g.requests && r.source == s)
    && (forall l :: l in g.listings ==> exists r :: r in g.requests && l in Yield(search(r.source, r.params)))
  }

  lemma SourceSearched(search: SearchFn, source: string, p: AgentParameters)
    ensures SearchedAsConfigured(search, [source], p, SourceSearches(search, source, p))
  {
    var g := SourceSearches(search, source, p);
    if source in Providers && source != "bringatrailer" && p.vehicles != [] {
      var vs := p.vehicles;
      var os := Outcomes(search, source, p, vs);
      VehicleRequests(search, source, p, vs, 0);
      forall r | r in g.requests ensures r.source == source && exists v :: v in vs && r.params == VehicleParams(p, v) {
        var i :| 0 <= i < |g.requests| && g.requests[i] == r;
        assert vs[i] in vs;
      }
      assert g.requests[0] in g.requests;
      forall l | l in g.listings ensures exists r :: r in g.requests && l in Yield(search(r.source, r.params)) {
        CollectedMembers(os[..|g.requests|], l);
        var i :| 0 <= i < |g.requests| && l in Yield(os[..|g.requests|][i]);
        assert g.requests[i] in g.requests;
      }
    } else if source in Providers {
      assert Request(source, p) in g.requests;
    }
  }

  /**
   * Every search of a run is for a configured, known source; the
   * `bringatrailer` search and every flat-mode search get the profile
   * unchanged, every other search one vehicle's parameters; every known
   * configured source is searched at least once; and every gathered listing
   * was returned by one of the searches.
   */
  lemma {:induction false} AllSourcesSearched(search: SearchFn, sources: seq<string>, p: AgentParameters)
    ensures SearchedAsConfigured(search, sources, p, AllSearches(search, sources, p))
    decreases |sources|
  {
    if sources != [] {
      var g := AllSearches(search, sources, p);
      var h := SourceSearches(search, sources[0], p);
      var t := AllSearches(search, sources[1..], p);
      SourceSearched(search, sources[0], p);
      AllSourcesSearched(search, sources[1..], p);
      assert g.requests == h.requests + t.requests;
      assert g.listings == h.listings + t.listings;
      forall r | r in g.requests ensures r.source in sources {
        if r in t.requests { assert r.source in sources[1..]; }
      }
      forall x | x in sources && x in Providers ensures exists r :: r in g.requests && r.source == x {
        if x != sources[0] {
          assert x in sources[1..];
          var r :| r in t.requests && r.source == x;
          assert r in g.requests;
        } else {
          var r :| r in h.requests && r.source == x;
          assert r in g.requests;
        }
      }
      forall l | l in g.listings ensures exists r :: r in g.requests && l in Yield(search(r.source, r.params)) {
        if l in h.listings {
          var r :| r in h.requests && l in Yield(search(r.source, r.params));
          assert r in g.requests;
        } else {
          var r :| r in t.requests && l in Yield(search(r.source, r.params));
          assert r in g.requests;
        }
      }
    }
  }

  /** The `Listing` row `run_agent` builds for a matched listing. */
  function RowFor(agentId: string, raw: RawListing, score: nat): ListingRow {
    ListingRow(agentId, raw.source, raw.externalId, raw.url, raw.title, raw.price, raw.mileage,
               raw.year, raw.make, raw.model, raw.rawData, score)
  }

  /**
   * The rows a run adds: for each gathered listing in order, a row when the
   * matcher accepts it and its external id is not stored yet (rows added
   * earlier in the same run included).
   */
  function NewMatches(sim: Similarity, agentId: string, p: AgentParameters, raws: seq<RawListing>, known: set<string>): seq<ListingRow>
    decreases |raws|
  {
    if raws == [] then []
    else
      var v := Verdict(sim, raws[0], p);
      if v.isMatch && raws[0].externalId !in known then
        [RowFor(agentId, raws[0], v.score)] + NewMatches(sim, agentId, p, raws[1..], known + {raws[0].externalId})
      else NewMatches(sim, agentId, p, raws[1..], known)
  }

  lemma IdsOfSnoc(rows: seq<ListingRow>, row: ListingRow)
    ensures IdsOf(rows + [row]) == IdsOf(rows) + {row.externalId}
  {
    assert row in rows + [row];
    forall r | r in rows ensures r in rows + [row] { }
  }

  /** One turn of the store loop, as `NewMatches` sees it. */
  lemma StoreStep(sim: Similarity, agentId: string, p: AgentParameters, raws: seq<RawListing>, i: nat, known: set<string>)
    requires i < |raws|
    ensures var v := Verdict(sim, raws[i], p);
      NewMatches(sim, agentId, p, raws[i..], known)
        == if v.isMatch && raws[i].externalId !in known
           then [RowFor(agentId, raws[i], v.score)] + NewMatches(sim, agentId, p, raws[i + 1..], known + {raws[i].externalId})
           else NewMatches(sim, agentId, p, raws[i + 1..], known)
  {
    assert raws[i..][1..] == raws[i + 1..];
  }

  /** The `for raw in all_raw_listings` loop: evaluate, look up, insert. */
  method StoreMatches(table: ListingTable, sim: Similarity, agentId: string, p: AgentParameters, raws: seq<RawListing>)
    returns (newMatches: seq<ListingRow>)
    requires table.Valid()
    modifies table
    ensures table.Valid()
    ensures newMatches == NewMatches(sim, agentId, p, raws, old(IdsOf(table.rows)))
    ensures table.rows == old(table.rows) + newMatches && table.agentIds == old(table.agentIds)
  {
    newMatches := [];
    ghost var goal := NewMatches(sim, agentId, p, raws, IdsOf(table.rows));
    for i := 0 to |raws|
      invariant table.Valid() && table.agentIds == old(table.agentIds)
      invariant table.rows == old(table.rows) + newMatches
      invariant newMatches + NewMatches(sim, agentId, p, raws[i..], IdsOf(table.rows)) == goal
    {
      ghost var known := IdsOf(table.rows);
      StoreStep(sim, agentId, p, raws, i, known);
      var raw := raws[i];
      var isMatch, score := Evaluate(sim, raw, p);
      var stored := false;
      if isMatch {
        var existing := table.HasExternalId(raw.externalId);
        assert existing <==> raw.externalId in known;
        if !existing {
          var row := RowFor(agentId, raw, score);
          IdsOfSnoc(table.rows, row);
          table.AddListing(row);
          ghost var rest := NewMatches(sim, agentId, p, raws[i + 1..], known + {raw.externalId});
          assert newMatches + ([row] + rest) == goal;
          newMatches := newMatches + [row];
          assert newMatches + rest == goal;
          stored := true;
        }
      }
      if !stored {
        assert newMatches + NewMatches(sim, agentId, p, raws[i + 1..], known) == goal;
      }
    }
    assert raws[|raws|..] == [];
  }

  /**
   * Soundness of the store step: each new row is the row of a gathered
   * listing the matcher accepts, with its score, for this agent, not yet
   * alerted, and its external id was not stored before.
   */
  lemma {:induction false} NewMatchesSound(sim: Similarity, agentId: string, p: AgentParameters, raws: seq<RawListing>, known: set<string>)
    ensures forall row :: row in NewMatches(sim, agentId, p, raws, known) ==>
      && row.externalId !in known
      && exists i :: 0 <= i < |raws| && Verdict(sim, raws[i], p).isMatch
           && row == RowFor(agentId, raws[i], Verdict(sim, raws[i], p).score)
    decreases |raws|
  {
    if raws != [] {
      var v := Verdict(sim, raws[0], p);
      var known' := if v.isMatch && raws[0].externalId !in known then known + {raws[0].externalId} else known;
      NewMatchesSound(sim, agentId, p, raws[1..], known');
      forall row | row in NewMatches(sim, agentId, p, raws[1..], known')
        ensures exists i :: (0 <= i < |raws| && Verdict(sim, raws[i], p).isMatch
          && row == RowFor(agentId, raws[i], Verdict(sim, raws[i], p).score))
      {
        var i :| 0 <= i < |raws[1..]| && Verdict(sim, raws[1..][i], p).isMatch
          && row == RowFor(agentId, raws[1..][i], Verdict(sim, raws[1..][i], p).score);
        assert raws[1..][i] == raws[i + 1];
      }
    }
  }

  /** The new rows have pairwise distinct external ids, none of them already stored. */
  lemma {:induction false} NewMatchesFresh(sim: Similarity, agentId: string, p: AgentParameters, raws: seq<RawListing>, known: set<string>)
    ensures var rows := NewMatches(sim, agentId, p, raws, known);
      UniqueExternalIds(rows) && IdsOf(rows) !! known
    decreases |raws|
  {
    if raws != [] {
      var v := Verdict(sim, raws[0], p);
      if v.isMatch && raws[0].externalId !in known {
        var id := raws[0].externalId;
        var rest := NewMatches(sim, agentId, p, raws[1..], known + {id});
        NewMatchesFresh(sim, agentId, p, raws[1..], known + {id});
        var rows := NewMatches(sim, agentId, p, raws, known);
        assert rows == [RowFor(agentId, raws[0], v.score)] + rest;
        forall j | 0 < j < |rows| ensures rows[j].externalId != id {
          assert rows[j] == rest[j - 1];
          assert rest[j - 1] in rest;
        }
        forall x | x in IdsOf(rows) ensures x !in known {
          var r :| r in rows && r.externalId == x;
          if r != rows[0] { assert r in rest; }
        }
      } else {
        NewMatchesFresh(sim, agentId, p, raws[1..], known);
      }
    }
  }

  /**
   * Completeness of the store step: every gathered listing the matcher
   * accepts has its external id stored after the run, by this run or before.
   */
  lemma {:induction false} NewMatchesComplete(sim: Similarity, agentId: string, p: AgentParameters, raws: seq<RawListing>, known: set<string>)
    ensures forall i :: 0 <= i < |raws| && Verdict(sim, raws[i], p).isMatch ==>
      raws[i].externalId in known + IdsOf(NewMatches(sim, agentId, p, raws, known))
    decreases |raws|
  {
    if raws != [] {
      var v := Verdict(sim, raws[0], p);
      var rows := NewMatches(sim, agentId, p, raws, known);
      var added := v.isMatch && raws[0].externalId !in known;
      var known' := if added then known + {raws[0].externalId} else known;
      var rest := NewMatches(sim, agentId, p, raws[1..], known');
      NewMatchesComplete(sim, agentId, p, raws[1..], known');
      if added {
        assert rows == [RowFor(agentId, raws[0], v.score)] + rest;
        assert rows[0] in rows;
      } else {
        assert rows == rest;
      }
      forall i | 0 <= i < |raws| && Verdict(sim, raws[i], p).isMatch
        ensures raws[i].externalId in known + IdsOf(rows)
      {
        if i > 0 {
          assert raws[1..][i - 1] == raws[i];
          if raws[i].externalId !in known' {
            var r :| r in rest && r.externalId == raws[i].externalId;
            assert r in rows;
          }
        }
      }
    }
  }

  lemma {:induction false} NothingNewWhenAllKnown(sim: Similarity, agentId: string, p: AgentParameters, raws: seq<RawListing>, known: set<string>)
    requires forall i :: 0 <= i < |raws| && Verdict(sim, raws[i], p).isMatch ==> raws[i].externalId in known
    ensures NewMatches(sim, agentId, p, raws, known) == []
    decreases |raws|
  {
    if raws != [] {
      forall i | 0 <= i < |raws[1..]| && Verdict(sim, raws[1..][i], p).isMatch
        ensures raws[1..][i].externalId in known
      {
        assert raws[1..][i] == raws[i + 1];
      }
      NothingNewWhenAllKnown(sim, agentId, p, raws[1..], known);
    }
  }

  /** Storing the same listings again adds nothing: a listing is alerted at most once. */
  lemma StoreTwiceAddsNothing(sim: Similarity, agentId: string, p: AgentParameters, raws: seq<RawListing>, known: set<string>)
    ensures var first := NewMatches(sim, agentId, p, raws, known);
      NewMatches(sim, agentId, p, raws, known + IdsOf(first)) == []
  {
    NewMatchesComplete(sim, agentId, p, raws, known);
    NothingNewWhenAllKnown(sim, agentId, p, raws, known + IdsOf(NewMatches(sim, agentId, p, raws, known)));
  }

  /** The e-mail `send_listing_alerts` is asked to send. */
  datatype Alert = Alert(recipients: seq<string>, agentName: string, listings: seq<ListingRow>)

  /** `notifications.get("email_to", [GMAIL_USER])`. */
  function Recipients(notifications: map<string, seq<string>>, gmailUser: string): (r: seq<string>)
    ensures "email_to" in notifications ==> r == notifications["email_to"]
    ensures "email_to" !in notifications ==> r == [gmailUser]
  {
    if "email_to" in notifications then notifications["email_to"] else [gmailUser]
  }

  /** Marking the new rows alerted leaves every row stored before the run as it was. */
  lemma AlertedOnlyNew(before: seq<ListingRow>, added: seq<ListingRow>)
    requires IdsOf(added) !! IdsOf(before)
    ensures var after := WithAlerted(before + added, IdsOf(added));
      && after[..|before|] == before
      && forall k :: 0 <= k < |added| ==> after[|before| + k] == added[k].(alerted := true)
  {
    var all := before + added;
    var after := WithAlerted(all, IdsOf(added));
    forall i | 0 <= i < |before| ensures after[i] == before[i] {
      assert all[i] == before[i];
      assert before[i].externalId in IdsOf(before);
    }
    forall k | 0 <= k < |added| ensures after[|before| + k] == added[k].(alerted := true) {
      assert all[|before| + k] == added[k];
      assert added[k] in added;
    }
  }

  /**
   * `run_agent`: gather, make sure the agent is stored, store the new
   * matches, and when there are any, alert once and mark them alerted.
   */
  method RunAgent(table: ListingTable, sim: Similarity, search: SearchFn, cfg: AgentConfig, gmailUser: string)
    returns (alert: Option<Alert>)
    requires table.Valid()
    modifies table
    ensures table.Valid()
    ensures var raws := AllSearches(search, cfg.sources, cfg.parameters).listings;
      var added := NewMatches(sim, cfg.id, cfg.parameters, raws, old(IdsOf(table.rows)));
      && table.rows == WithAlerted(old(table.rows) + added, IdsOf(added))
      && table.agentIds == old(table.agentIds) + {cfg.id}
      && (alert.Some? <==> added != [])
      && (alert.Some? ==> alert.value == Alert(Recipients(cfg.notifications, gmailUser), cfg.name, added))
    ensures table.agentIds == old(table.agentIds) + {cfg.id}
    ensures alert.Some? ==> alert.value.agentName == cfg.name && alert.value.recipients == Recipients(cfg.notifications, gmailUser)
    ensures alert.Some? ==> alert.value.listings != []
  {
    var raws, _ := GatherListings(search, cfg.sources, cfg.parameters);
    if cfg.id !in table.agentIds {
      table.AddAgent(cfg.id);
    }
    var newMatches := StoreMatches(table, sim, cfg.id, cfg.parameters, raws);
    alert := None;
    if newMatches != [] {
      alert := Some(Alert(Recipients(cfg.notifications, gmailUser), cfg.name, newMatches));
    }
    table.MarkAlerted(IdsOf(newMatches));
  }

  /** An `agents` row: its enabled flag, and its configuration if `AgentConfig(**config_json)` accepts it. */
  datatype StoredAgent = StoredAgent(id: string, enabled: bool, config: Option<AgentConfig>)

  /** The configuration `run_all_agents` runs for a stored agent, if any. */
  function Runnable(a: StoredAgent): Option<AgentConfig> {
    if a.enabled then a.config else None
  }

  /** The agent loop of `run_all_agents`: enabled agents whose configuration parses, in order. */
  method AgentsToRun(agents: seq<StoredAgent>) returns (configs: seq<AgentConfig>)
    ensures configs == FilterMap(agents, Runnable)
  {
    configs := [];
    for i := 0 to |agents|
      invariant configs == FilterMap(agents[..i], Runnable)
    {
      assert agents[..i + 1][..i] == agents[..i];
      var a := agents[i];
      if !a.enabled {
        continue;
      }
      match a.config {
        case None =>
        case Some(cfg) => configs := configs + [cfg];
      }
    }
    assert agents[..|agents|] == agents;
  }

  /** Exactly the enabled agents with a parsable configuration are run. */
  lemma RunsExactlyEnabledParsable(agents: seq<StoredAgent>)
    ensures forall c :: c in FilterMap(agents, Runnable) ==>
      exists i :: 0 <= i < |agents| && agents[i].enabled && agents[i].config == Some(c)
    ensures forall i :: 0 <= i < |agents| && agents[i].enabled && agents[i].config.Some? ==>
      agents[i].config.value in FilterMap(agents, Runnable)
  {
    FilterMapMembers(agents, Runnable);
  }

  /** The ids of a sequence of agent configurations. */
  function AgentIdsOf(configs: seq<AgentConfig>): set<string> {
    if configs == [] then {} else AgentIdsOf(configs[..|configs| - 1]) + {configs[|configs| - 1].id}
  }

  /** An id is among the ids exactly when some configuration carries it. */
  lemma {:induction false} AgentIdsOfMembers(configs: seq<AgentConfig>)
    ensures forall c :: c in configs ==> c.id in AgentIdsOf(configs)
    ensures forall x :: x in AgentIdsOf(configs) ==> exists c :: c in configs && c.id == x
  {
    if configs != [] {
      var init := configs[..|configs| - 1];
      AgentIdsOfMembers(init);
      assert forall c :: c in configs ==> c in init || c == configs[|configs| - 1];
      assert forall c :: c in init ==> c in configs;
    }
  }

  /** An alert `run_agent` sends for one of the given configurations. */
  predicate AlertFromSome(a: Alert, configs: seq<AgentConfig>, gmailUser: string) {
    exists c :: c in configs && a.agentName == c.name && a.recipients == Recipients(c.notifications, gmailUser)
  }

  /**
   * `run_all_agents`, with the agent runs taken one after another: every
   * runnable agent ends up stored, and every alert is the one of some
   * runnable agent, naming it and its recipients.
   */
  method RunAllAgents(table: ListingTable, sim: Similarity, search: SearchFn, agents: seq<StoredAgent>, gmailUser: string)
    returns (alerts: seq<Alert>)
    requires table.Valid()
    modifies table
    ensures table.Valid()
    ensures table.agentIds == old(table.agentIds) + AgentIdsOf(FilterMap(agents, Runnable))
    ensures forall k :: 0 <= k < |alerts| ==> alerts[k].listings != []
    ensures forall k :: 0 <= k < |alerts| ==> AlertFromSome(alerts[k], FilterMap(agents, Runnable), gmailUser)
    ensures |alerts| <= |FilterMap(agents, Runnable)|
  {
    var configs := AgentsToRun(agents);
    ghost var stored := table.agentIds;
    alerts := [];
    ghost var senders: seq<AgentConfig> := [];
    for i := 0 to |configs|
      invariant table.Valid() && |alerts| <= i
      invariant table.agentIds == stored + AgentIdsOf(configs[..i])
      invariant |senders| == |alerts| && forall c :: c in senders ==> c in configs
      invariant forall k :: 0 <= k < |alerts| ==>
        && alerts[k].listings != []
        && alerts[k].agentName == senders[k].name
        && alerts[k].recipients == Recipients(senders[k].notifications, gmailUser)
    {
      assert configs[..i + 1][..i] == configs[..i];
      ghost var before := table.agentIds;
      var alert := RunAgent(table, sim, search, configs[i], gmailUser);
      assert table.agentIds == before + {configs[i].id};
      assert AgentIdsOf(configs[..i + 1]) == AgentIdsOf(configs[..i]) + {configs[i].id};
      if alert.Some? {
        alerts := alerts + [alert.value];
        senders := senders + [configs[i]];
      }
    }
    assert configs[..|configs|] == configs;
    forall k | 0 <= k < |alerts| ensures AlertFromSome(alerts[k], configs, gmailUser) {
      assert senders[k] in senders;
    }
  }
}
